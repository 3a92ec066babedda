# Rookie AR scene runner — a Dafny model

This project models the AR core of the Rookie Unity app. A marker id and a
backend address come in from the Flutter host. The runner fetches the AR scene
registered under that marker from the backend and registers the marker image
with AR Foundation's image tracker. When the tracker first reports the marker
as `Tracking`, the runner spawns the scene's 3D items under an anchor that
follows the marker.

Each item is loaded as a GLB. Its `gs://` location is first rewritten to the
public Google Cloud Storage host. Renderers left with null materials get a
fallback material. Authored scales and positions are sanitised before they
are applied.

The model has eight modules, one file each:
- `Results`: `Option` and `Result`.
- `Strings`: the .NET string operations the source relies on.
- `SceneModels`: the JSON data-transfer objects.
- `Backend`: `Backend.FetchSceneByMarkerId`.
- `ContentLoader`: URL resolution, `FixNullMaterials` and the control flow of `LoadGlb`.
- `SpawnPlan`: the value-level meaning of `EnsureSpawned`, namely the order it visits items in, the asset lookup, sanitisation and the registry it builds.
- `RunnerState`: tracked images, the anchor, and the consistency predicate that ties the runner's fields to `SpawnPlan`.
- `SceneRunner`: the `ARSceneRunner` class itself.

How the model is built:
- **Awaits are steps.** Every `await` in `ARSceneRunner` is a suspension point, so each is a separate method, and a suspended call is a continuation the runner holds.
  - `StartWithInput` is `BeginStart`, then `FinishFetch`, then `FinishRegistration`. Suspended starts are kept in the sequence `starts`.
  - A spawn pass waiting on `LoadGlb` is kept in the sequence `passes` until `FinishLoad` delivers the loader's outcome for it.
  - Tracking events can arrive between any two steps, and so can a new `StartWithInput`: `FlutterBridge.SetMarkerJson` is an `async void` entry point that may call it at any time (`FlutterBridge.cs:15-27`).
- **Foreign calls are parameters:**
  - `UnityWebRequest.EscapeURL` becomes `escape`;
  - the HTTP request becomes `send`;
  - `JsonUtility.FromJson` becomes `decode`;
  - `Vector3.normalized` becomes `normalize`;
  - the GLB importer's result becomes `importer`;
  - `Shader.Find` becomes a set of available shader names;
  - the live state and pose of the tracked images a resumed foreach visits become the parameter `now` of `FinishLoad`.
- **Ghost fields record history.** The object invariant `Valid` connects the runner to the pass:
  - `sceneRequests` holds the URLs requested and `registrations` the marker registrations;
  - `passOrder`, `passAssets` and `loads` hold the current pass's items, its assets and each visited item's load outcome, which lets `Valid` say that `spawned` is what `SpawnPlan.SpawnAll` yields for the prefix visited so far;
  - `overlapped` records that the last reset came while a call of an earlier activation was still suspended.
- **What `Valid` promises.** In every state the suspended passes wait on real items and, given a `normalize` that behaves like `Vector3.normalized`, every spawned object is well placed. When the activation is not overlapped, `Valid` also says:
  - at most one start and one pass are suspended;
  - `isSpawning` holds exactly while the pass is suspended;
  - the registry is what the plan of the fetched scene yields.

Modelling decisions:
- **Where the backend address comes from.** `Backend.FetchSceneByMarkerId` reads the backend address from `FlutterBridge.LatestInput`. That is the same object `StartWithInput` receives (`FlutterBridge.cs:17,27`), so the model passes `input.backendBase` explicitly.
- **Null backend address.** In the source a null address throws a `NullReferenceException` inside the `try` at `ARSceneRunner.cs:82-91`. The model gives it its own error, `NullBackendBase`. The runner treats it like any other fetch failure.
- **Null and empty strings** are both modelled as `""`. `string.IsNullOrEmpty`, `string.IsNullOrWhiteSpace` and the `spawned` key checks treat them alike. One check does not: the ordinal `string.Equals` on the image name (`ARSceneRunner.cs:174`). It tells a null name apart from `""`, and the model's `Matches` does not (see "Left out").
- **`Mathf.Approximately(a, 0)`** holds when `|a| < 8 * Mathf.Epsilon`, which depends on the platform.
  - `Mathf.Epsilon` is the smallest subnormal float, 2^-149, where subnormals are supported. The bound is then 2^-146.
  - Where the platform flushes subnormals to zero, `Mathf.Epsilon` is the smallest normal float, 2^-126. The bound is then 2^-123.
  - The model takes 2^-146 (`SpawnPlan.ApproximatelyZeroBound`). No sanitisation property depends on the choice.
- **The handler's loop.** The `foreach` in `HandleTrackedImages` is modelled in two phases.
  - Phase one: the anchor follows every matching image up to and including the first one that triggers the pass.
  - The pass then starts. If it suspends on a load, the remaining images are kept in its continuation. When the pass ends, `FinishLoad` visits them with their states and poses as they are at that time (`now`).
  - This is the source's behaviour because the guard `!hasSpawned && !isSpawning` is false for every later image of the same event.
- **Reading `data` after an await.** The loop of `EnsureSpawned` reads `data.assets` at every lookup. A scene fetched by a newer activation can replace `data` while the pass is suspended, so `AdvancePass` reads the asset list as it is then. When that list or `data` is null, the lookup throws and the pass ends with the step `Aborted`.

## Model

| member | source | states |
|---|---|---|
| Backend.RequestUrl | unity/Rookie/Assets/SourceFiles/Scripts/AR/Backend.cs:9-10 | the URL is the backend base with all trailing `/` removed, followed by the by-marker-id path and the escaped marker id |
| Backend.RequestUrlIgnoresTrailingSlash | unity/Rookie/Assets/SourceFiles/Scripts/AR/Backend.cs:9 | a base with a trailing `/` gives the same URL as the base without one |
| Backend.SceneFromResponse | unity/Rookie/Assets/SourceFiles/Scripts/AR/Backend.cs:16-19 | an unsuccessful request is an error; on success, a body the decoder rejects is an error; the result is Ok exactly when the request succeeds and the body decodes, and then it is the decoded (possibly null) scene |
| Backend.FetchSceneByMarkerId | unity/Rookie/Assets/SourceFiles/Scripts/AR/Backend.cs:7-20 | a missing base is an error; the fetch succeeds exactly when a base is given, the request to `RequestUrl` succeeds and its body decodes, and it then returns that body's scene |
| ContentLoader.TryGsToGcsHttps | unity/Rookie/Assets/SourceFiles/Scripts/AR/ContentLoader.cs:191-205 | it succeeds exactly when the locator starts with `gs://` in any case and has a `/` after the scheme; the result is then the public storage host, the bucket (up to the first `/`), a `/` and the escaped path |
| ContentLoader.GsLocatorRewrite | unity/Rookie/Assets/SourceFiles/Scripts/AR/ContentLoader.cs:194-203 | `gs://bucket/path`, with the scheme in any case and a bucket without `/`, becomes `https://storage.googleapis.com/bucket/` plus the escaped path |
| ContentLoader.ResolveUrl | unity/Rookie/Assets/SourceFiles/Scripts/AR/ContentLoader.cs:157-186 | blank input is exactly the `Empty url` error; a non-`gs://` URL is returned unchanged; a `gs://` URL without a `/` after the bucket is exactly the not-supported error; a rewritten `gs://` URL is the GCS rewrite |
| ContentLoader.ResolveIsIdempotent | unity/Rookie/Assets/SourceFiles/Scripts/AR/ContentLoader.cs:157-205 | resolving an already resolved URL returns it unchanged |
| ContentLoader.Repaired | unity/Rookie/Assets/SourceFiles/Scripts/AR/ContentLoader.cs:102-124 | the repaired material list has the same length and no null or shader-less slot; intact slots are kept; each broken slot holds a new material with the fallback shader |
| ContentLoader.RepairIsIdempotent | unity/Rookie/Assets/SourceFiles/Scripts/AR/ContentLoader.cs:102-124 | repairing twice is repairing once; a repaired list needs no repair; a list that needs none is left as it is |
| ContentLoader.FindFallback | unity/Rookie/Assets/SourceFiles/Scripts/AR/ContentLoader.cs:84-93 | the result is the first name in the fallback list whose shader is found, and None exactly when none is found |
| ContentLoader.RepairSlots | unity/Rookie/Assets/SourceFiles/Scripts/AR/ContentLoader.cs:104-123 | the renderer's material array becomes `Repaired` of the old one; the array is reassigned exactly when some slot needed repair |
| ContentLoader.FixNullMaterials | unity/Rookie/Assets/SourceFiles/Scripts/AR/ContentLoader.cs:68-125 | with no renderers nothing happens; otherwise the first available fallback shader is chosen; with none found no renderer changes; with one found every renderer's materials become `Repaired`, and each renderer's `sharedMaterials` is reassigned only if it needed repair |
| ContentLoader.FirstAvailableIsFound | unity/Rookie/Assets/SourceFiles/Scripts/AR/ContentLoader.cs:84-100 | any result meeting the search's contract is `FirstAvailable`, the first name in the fallback list that the build has |
| ContentLoader.LoadGlb | unity/Rookie/Assets/SourceFiles/Scripts/AR/ContentLoader.cs:25-60 | a blank URL, a resolution error, a failed load and a failed instantiation each give their own error, in that order; success happens exactly when all four steps pass, and it returns the resolved URL with every renderer repaired; on an error no renderer is touched |
| SpawnPlan.InsertKeepsSorted | unity/Rookie/Assets/SourceFiles/Scripts/AR/ARSceneRunner.cs:249 | inserting into a list sorted by `orderIndex` keeps it sorted and adds exactly that item |
| SpawnPlan.SortSortsAndPermutes | unity/Rookie/Assets/SourceFiles/Scripts/AR/ARSceneRunner.cs:249 | `SortByOrder`, the model of `OrderBy(i => i.orderIndex)`, returns a list sorted by `orderIndex` that is a permutation of its input |
| SpawnPlan.InsertKeepsOrderGroups | unity/Rookie/Assets/SourceFiles/Scripts/AR/ARSceneRunner.cs:249 | inserting an item leaves the relative order of the items with any given `orderIndex` as it was, before the new item when the keys are equal |
| SpawnPlan.SortIsStable | unity/Rookie/Assets/SourceFiles/Scripts/AR/ARSceneRunner.cs:249 | `SortByOrder` is stable: items with equal `orderIndex` keep their relative order, as `OrderBy` promises |
| SpawnPlan.NonNullItemsKeepsItems | unity/Rookie/Assets/SourceFiles/Scripts/AR/ARSceneRunner.cs:256-260 | dropping null entries keeps each non-null item exactly as often as the list holds it, and never lengthens the list |
| SpawnPlan.OrderItemsSortsItems | unity/Rookie/Assets/SourceFiles/Scripts/AR/ARSceneRunner.cs:249-260 | the visiting order is sorted by `orderIndex`, holds each non-null item exactly as often as the list does, and keeps items with equal `orderIndex` in list order |
| SpawnPlan.OrderItemsAsWritten | unity/Rookie/Assets/SourceFiles/Scripts/AR/ARSceneRunner.cs:249 | sorting before dropping nulls fails exactly when some item is null, and otherwise gives the corrected order |
| SpawnPlan.NullItemAbortsPass | unity/Rookie/Assets/SourceFiles/Scripts/AR/ARSceneRunner.cs:249-260 | for `[null, item]` the source's sort dereferences the null, while the null check the loop intends would visit the item |
| SpawnPlan.FindAssetFindsFirst | unity/Rookie/Assets/SourceFiles/Scripts/AR/ARSceneRunner.cs:275-280 | `FindAsset` is None exactly when no non-null asset has the key; otherwise it is the first asset with that key |
| SpawnPlan.LookupAsWrittenThrows | unity/Rookie/Assets/SourceFiles/Scripts/AR/ARSceneRunner.cs:275 | the lookup as written throws exactly when a null entry comes before the first asset with the key; otherwise it finds what `FindAsset` finds |
| SpawnPlan.NullAssetAbortsLookup | unity/Rookie/Assets/SourceFiles/Scripts/AR/ARSceneRunner.cs:275-280 | for `[null, asset]` the source's lookup dereferences the null, although the asset it looks for is in the list |
| SpawnPlan.SanitizeAxis | unity/Rookie/Assets/SourceFiles/Scripts/AR/ARSceneRunner.cs:311-320 | each scale axis ends in [0.05, 1.5]; an approximately-zero axis becomes 0.2; any other in-range axis is kept; one below the range becomes 0.05 and one above becomes 1.5 |
| SpawnPlan.SanitizeScale | unity/Rookie/Assets/SourceFiles/Scripts/AR/ARSceneRunner.cs:311-320 | every axis of the applied scale lies in [0.05, 1.5] |
| SpawnPlan.PositionSanitised | unity/Rookie/Assets/SourceFiles/Scripts/AR/ARSceneRunner.cs:323-326 | `SanitizePosition` keeps a position at most 2 m from the anchor and pulls a farther one back to 0.5 m in the same direction; the applied position is never farther than 2 m |
| SpawnPlan.PlaceWellPlaced | unity/Rookie/Assets/SourceFiles/Scripts/AR/ARSceneRunner.cs:301-330 | `Place` names the object `ARItem_<id>`, gives it a scale in [0.05, 1.5] and a position within 2 m of the anchor |
| SpawnPlan.PlaceKeepsWellPlaced | unity/Rookie/Assets/SourceFiles/Scripts/AR/ARSceneRunner.cs:301-332 | storing one more placed object in a registry of well-placed objects keeps every object well placed |
| SpawnPlan.SpawnedKeys | unity/Rookie/Assets/SourceFiles/Scripts/AR/ARSceneRunner.cs:252-335 | an id is in the registry `SpawnAll` builds (one `StepItem` per visited item) exactly when some visited item with that id, a non-empty id and a matching asset loaded successfully |
| SpawnPlan.SpawnedFromFirstSuccess | unity/Rookie/Assets/SourceFiles/Scripts/AR/ARSceneRunner.cs:269-332 | the entry `SpawnAll` holds for an id is the placement of the first item with that id that loaded; later items with the same id are skipped |
| SpawnPlan.SpawnAllWellPlaced | unity/Rookie/Assets/SourceFiles/Scripts/AR/ARSceneRunner.cs:252-335 | every object the pass spawns is named after its id, with a sanitised scale and position |
| SpawnPlan.SkipUnwanted | unity/Rookie/Assets/SourceFiles/Scripts/AR/ARSceneRunner.cs:256-280 | items the loop skips without loading (empty id, id already spawned, no asset with that id) leave the registry as it was |
| SpawnPlan.NextStopIsFirstStop | unity/Rookie/Assets/SourceFiles/Scripts/AR/ARSceneRunner.cs:252-280 | the scan `NextStop` stops at the first item from its start whose id is non-empty and not yet spawned and whose lookup throws or finds an asset, and passes over every item before it |
| SpawnPlan.NextWanted | unity/Rookie/Assets/SourceFiles/Scripts/AR/ARSceneRunner.cs:252-282 | the loop's scan returns exactly `NextStop`: the next item it hands to the loader or whose lookup throws, or the end of the order |
| SpawnPlan.Plan | unity/Rookie/Assets/SourceFiles/Scripts/AR/ARSceneRunner.cs:231-249 | the pass returns early exactly when items or assets are missing or empty; otherwise it visits the ordered non-null items against the scene's asset list |
| SpawnPlan.DefaultItemPlacedAsAuthored | unity/Rookie/Assets/SourceFiles/Scripts/AR/Models/ARSceneWithItemsResponse.cs:24-40 | `DefaultItem`, an item with the DTO's field defaults (zero offset, zero rotation, unit scale), is placed at the anchor, unrotated, with unit scale |
| SpawnPlan.DefaultAssetIsWanted | unity/Rookie/Assets/SourceFiles/Scripts/AR/Models/ARSceneWithItemsResponse.cs:42-52 | `DefaultAsset`, an asset giving only its id and URL, is what the lookup finds for that id behind assets with other ids, so a not yet spawned item naming it goes to the loader |
| RunnerState.AnchorAfterAppend | unity/Rookie/Assets/SourceFiles/Scripts/AR/ARSceneRunner.cs:165-200 | `AnchorAfter`, the anchor after the foreach, over two batches one after the other is `AnchorAfter` over their concatenation |
| RunnerState.AnchorIgnoresOthers | unity/Rookie/Assets/SourceFiles/Scripts/AR/ARSceneRunner.cs:174-182 | a batch with no image of the marker in a state other than `None` leaves the anchor as it was |
| RunnerState.AnchorParentIsFixed | unity/Rookie/Assets/SourceFiles/Scripts/AR/ARSceneRunner.cs:185-200 | once created the anchor is never removed, and it is always parented to the world root when there is one and to the image manager otherwise |
| RunnerState.AnchorAtLastMatch | unity/Rookie/Assets/SourceFiles/Scripts/AR/ARSceneRunner.cs:185-200 | after a batch, `AnchorAfter` (one `Reanchor` per matching image) sits at the pose of the last matching image, under the fixed parent |
| RunnerState.FirstTrigger | unity/Rookie/Assets/SourceFiles/Scripts/AR/ARSceneRunner.cs:203 | the index of the first `Tracking` image of the marker, or the end if there is none |
| RunnerState.PassOpens | unity/Rookie/Assets/SourceFiles/Scripts/AR/ARSceneRunner.cs:249-282 | a fresh pass that skipped its leading unwanted items is consistent with the plan |
| RunnerState.PassAdvances | unity/Rookie/Assets/SourceFiles/Scripts/AR/ARSceneRunner.cs:284-334 | recording one load outcome and the following skipped items keeps the registry equal to the plan's prefix |
| RunnerState.LoadRecorded | unity/Rookie/Assets/SourceFiles/Scripts/AR/ARSceneRunner.cs:284-335 | after a load returns, the runner's fields stay consistent, whether the pass is finished or still waiting on the next item |
| RunnerState.PassReadsPlannedAssets | unity/Rookie/Assets/SourceFiles/Scripts/AR/ARSceneRunner.cs:275 | while a pass of an activation no earlier call overlaps is suspended, the asset list its lookups read is the one it was planned with |
| RunnerState.ResetConsistent | unity/Rookie/Assets/SourceFiles/Scripts/AR/ARSceneRunner.cs:57-61 | the reset leaves a valid runner whatever scene was kept; the activation counts as overlapped exactly when a call of an earlier one is still suspended |
| RunnerState.StartRequested | unity/Rookie/Assets/SourceFiles/Scripts/AR/ARSceneRunner.cs:77-83 | sending the scene request suspends one more start and keeps the invariant |
| RunnerState.PassStartKeepsValid | unity/Rookie/Assets/SourceFiles/Scripts/AR/ARSceneRunner.cs:203-282 | starting a pass keeps the invariant: an early return or a plan with no item to load finishes it at once; otherwise one more pass suspends on the first item the scan stops at |
| RunnerState.AdvanceKeepsValid | unity/Rookie/Assets/SourceFiles/Scripts/AR/ARSceneRunner.cs:284-335 | after a load the pass waits on its next stop, completes, or throws on a null asset list, and the invariant holds in each case; with no overlapping activation it never throws |
| SceneRunner.ARSceneRunner.constructor | unity/Rookie/Assets/SourceFiles/Scripts/AR/ARSceneRunner.cs:24-32 | a new runner is not ready, has spawned nothing, has no anchor or scene, and is not subscribed |
| SceneRunner.ARSceneRunner.OnEnable | unity/Rookie/Assets/SourceFiles/Scripts/AR/ARSceneRunner.cs:36-40 | subscribes the handler once when there is an image manager |
| SceneRunner.ARSceneRunner.OnDisable | unity/Rookie/Assets/SourceFiles/Scripts/AR/ARSceneRunner.cs:42-46 | unsubscribes one subscription when there is an image manager |
| SceneRunner.ARSceneRunner.ResetActivation | unity/Rookie/Assets/SourceFiles/Scripts/AR/ARSceneRunner.cs:57-61 | in any state: clears readiness, both spawn flags, the anchor and the registry; suspended calls of earlier activations stay suspended, and the activation is overlapped exactly when there are any |
| SceneRunner.ARSceneRunner.RequestScene | unity/Rookie/Assets/SourceFiles/Scripts/AR/ARSceneRunner.cs:65-82 | a null input or an empty marker id stops before anything is requested; otherwise the input is recorded and, when a backend base is given, one request for `RequestUrl` is sent |
| SceneRunner.ARSceneRunner.BeginStart | unity/Rookie/Assets/SourceFiles/Scripts/AR/ARSceneRunner.cs:53-83 | in any state: the reset, then the validation and the request, as above |
| SceneRunner.ARSceneRunner.FinishFetch | unity/Rookie/Assets/SourceFiles/Scripts/AR/ARSceneRunner.cs:82-121 | a failed fetch stops, keeping the old scene; a fetched scene replaces it; registration is requested exactly for a non-null scene with a marker, with that marker's id, image URL and width |
| SceneRunner.ARSceneRunner.FinishRegistration | unity/Rookie/Assets/SourceFiles/Scripts/AR/ARSceneRunner.cs:108-134 | the scene becomes ready exactly when registration succeeded and there is an image manager; the handler is then unsubscribed and subscribed again, so at least one subscription remains |
| SceneRunner.ARSceneRunner.ResumeStart | unity/Rookie/Assets/SourceFiles/Scripts/AR/ARSceneRunner.cs:82-134 | a suspended start runs to its end: it leaves `starts`; the scene becomes ready exactly when a scene with a marker arrives, registration succeeds and there is an image manager; one registration is requested exactly when such a scene arrives |
| SceneRunner.ARSceneRunner.StartWithInput | unity/Rookie/Assets/SourceFiles/Scripts/AR/ARSceneRunner.cs:53-139 | in any state: the scene is ready exactly when the input is valid, the fetch returns a scene with a marker, registration succeeds and there is an image manager; registration is requested exactly when a scene with a marker arrives; at most one fetch is sent; nothing is spawned; suspended calls of earlier activations are left as they are |
| SceneRunner.ARSceneRunner.OnChanged | unity/Rookie/Assets/SourceFiles/Scripts/AR/ARSceneRunner.cs:144-152 | before the scene is ready nothing changes; afterwards it processes the added images and then the updated ones |
| SceneRunner.ARSceneRunner.HandleTrackedImages | unity/Rookie/Assets/SourceFiles/Scripts/AR/ARSceneRunner.cs:154-217 | before the scene is ready nothing changes; afterwards the anchor follows the marker's images, the first `Tracking` image starts the pass if none has started, and images of other markers change nothing |
| SceneRunner.ARSceneRunner.MoveAnchor | unity/Rookie/Assets/SourceFiles/Scripts/AR/ARSceneRunner.cs:185-200 | the anchor is created, or moved, to the image's pose under the fixed parent |
| SceneRunner.ARSceneRunner.FollowImages | unity/Rookie/Assets/SourceFiles/Scripts/AR/ARSceneRunner.cs:165-200 | the anchor becomes what following the batch's matching images yields |
| SceneRunner.ARSceneRunner.ProcessImages | unity/Rookie/Assets/SourceFiles/Scripts/AR/ARSceneRunner.cs:165-215 | the loop over one batch: the anchor follows it, the first trigger starts a pass only when none has started, and a suspended pass keeps the rest of the batch |
| SceneRunner.ARSceneRunner.StartPass | unity/Rookie/Assets/SourceFiles/Scripts/AR/ARSceneRunner.cs:203-282 | either one more pass suspends on the first item of the plan that the scan stops at, holding the rest of the batch, with `isSpawning` set; or the pass returns early or finds nothing to load and ends with `hasSpawned` set |
| SceneRunner.ARSceneRunner.OpenPass | unity/Rookie/Assets/SourceFiles/Scripts/AR/ARSceneRunner.cs:249-282 | on a plan with items, a scan from the first item that stops suspends one more pass there with `isSpawning` set; a scan that reaches the end completes the pass with `hasSpawned` set |
| SceneRunner.ARSceneRunner.AdvancePass | unity/Rookie/Assets/SourceFiles/Scripts/AR/ARSceneRunner.cs:252-335 | a loaded object is recorded under its id with its sanitised placement, and a null or thrown load records nothing; the scan on the asset list as it is now decides the step: a stop on a null list aborts, the end completes, any other stop suspends; only completion sets `hasSpawned`, and with no overlapping activation it never aborts |
| SceneRunner.ARSceneRunner.EndPass | unity/Rookie/Assets/SourceFiles/Scripts/AR/ARSceneRunner.cs:203-215 | a pass that completes or throws is removed, `isSpawning` is cleared (the `finally`), `hasSpawned` is set only when it completed, and the registry keeps the last load |
| SceneRunner.ARSceneRunner.SuspendPass | unity/Rookie/Assets/SourceFiles/Scripts/AR/ARSceneRunner.cs:252-293 | the pass waits on its next stop: only its cursor moves, and the registry keeps the last load |
| SceneRunner.ARSceneRunner.FinishLoad | unity/Rookie/Assets/SourceFiles/Scripts/AR/ARSceneRunner.cs:165-335 | as `AdvancePass`; when the pass completes, the images left over from its event move the anchor with the states and poses they have now; a pass that throws abandons them |
| SceneRunner.SpawnedAreWellPlaced | unity/Rookie/Assets/SourceFiles/Scripts/AR/ARSceneRunner.cs:301-330 | in every reachable state, overlapped or not, every spawned object is named after its id, with a sanitised scale and position |
| SceneRunner.AtMostOnePass | unity/Rookie/Assets/SourceFiles/Scripts/AR/ARSceneRunner.cs:203-215 | with no overlapping activation, at most one start and one pass are suspended, `isSpawning` holds exactly while the pass is, and `isSpawning` and `hasSpawned` never hold together |
| SceneRunner.SpawnedComeFromScene | unity/Rookie/Assets/SourceFiles/Scripts/AR/ARSceneRunner.cs:262-332 | with no overlapping activation, every registry key is a non-empty id of some non-null item of the current scene that has an asset |
| SceneRunner.FinishedPassIsPlanned | unity/Rookie/Assets/SourceFiles/Scripts/AR/ARSceneRunner.cs:221-338 | with no overlapping activation, a finished pass has visited the whole planned order and its registry is exactly what those visits yield; a pass that returned early spawned nothing |

## Left out

- Firebase resolution of `gs://` URLs (`ContentLoader.cs:166-178`): the branch is compiled only with `FIREBASE_PRESENT`. The model takes the public-bucket branch.
- The GLB import itself, `GameObject` creation, `SetParent`, `contentRoot` and `DumpMaterials`: these are engine calls. The importer's two results are a parameter of `LoadGlb`, whose returned object is modelled by the URL it was loaded from.
- `Debug.Log`, `Debug.LogWarning` and `Debug.LogError`: logging only.
- The null checks on `data` and `anchor` at the top of `EnsureSpawned` (`ARSceneRunner.cs:225-229,243-247`) cannot fail when it is called from the handler, which has just checked the scene and created the anchor. `StartPass` requires both instead of testing them.
- SceneRunner.ARSceneRunner.StartPass: it runs the corrected pass. It orders the items with `OrderItems`, which drops null items before sorting, and `AdvancePass` and `NextWanted` look assets up with `FindAsset`, which passes over null entries. The source's sort (`ARSceneRunner.cs:249`) and lookup (`ARSceneRunner.cs:275`) throw on a null entry instead: the pass then ends without setting `hasSpawned`, and the rest of the event's images are abandoned. That behaviour is modelled by `OrderItemsAsWritten` and `FindAssetAsWritten` and recorded under "Findings", but the runner class does not take it.
- SceneRunner.ARSceneRunner.ResetActivation, SceneRunner.ARSceneRunner.BeginStart and SceneRunner.ARSceneRunner.StartWithInput: a start that arrives while calls of an earlier activation are still suspended is modelled. The runner stays `Valid`, and every spawned object stays well placed. But consistency with the plan, "at most one pass per activation" (`AtMostOnePass`), `SpawnedComeFromScene` and `FinishedPassIsPlanned` are proved only for an activation that no earlier call overlaps. The double pass an overlap allows is not excluded. The reset clears `isSpawning` while an old pass is still in flight, so a second pass can start, and the old one writes into the new registry and sets `hasSpawned` for the new activation.
- RunnerState.Matches: it compares names as strings in which null and `""` are the same. The ordinal `string.Equals` at `ARSceneRunner.cs:174` tells them apart, so a null image name matches an empty marker id in the model but not in the source, and the other way round.
- Floating point: positions, rotations and scales are modelled as real numbers. `Vector3.normalized` is the parameter `normalize`, constrained by `SpawnPlan.IsNormalizer` to give a unit vector in the same direction. `Mathf.Approximately(a, 0)` uses a fixed bound of 2^-146, while on platforms that flush subnormals to zero the engine's bound is 2^-123.
- Engine-side destruction of spawned objects and of the anchor is not modelled.
- `RuntimeImageLoader`, `ImageTrackerDebugger`, `RenderPipelineLogger`, `GlbTestRunner` and the rest of `FlutterBridge` are not part of this model.
- The JSON mapping done by `JsonUtility` is not modelled. `decode` stands for it and yields either a scene, a null or a malformed body. The DTO field defaults are the functions `SceneModels.DefaultItem` and `SceneModels.DefaultAsset`.

## Findings

| source | as written | input that shows it | evidently intended | confidence | as-written member | corrected member |
|---|---|---|---|---|---|---|
| unity/Rookie/Assets/SourceFiles/Scripts/AR/ARSceneRunner.cs:249-260 | `OrderBy(i => i.orderIndex)` reads `orderIndex` of every entry before the loop's null check; a null item throws and aborts the whole pass | `items = [null, item]` | skip null items and spawn the rest in `orderIndex` order | not executed | SpawnPlan.NullItemAbortsPass | SpawnPlan.OrderItemsSortsItems |
| unity/Rookie/Assets/SourceFiles/Scripts/AR/ARSceneRunner.cs:275-280 | `FirstOrDefault(a => a.asset3DId == key)` reads `asset3DId` of every entry up to the first match; a null asset entry ahead of it throws and aborts the whole pass | `assets = [null, asset]` with an item naming `asset` | pass over null assets, as the loop passes over null items, and find the first asset with the id | not executed | SpawnPlan.NullAssetAbortsLookup | SpawnPlan.FindAssetFindsFirst |
