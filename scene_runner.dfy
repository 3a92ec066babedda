/**
 * `ARSceneRunner`: the activation state machine. Every `await` of the source
 * is a suspension point, and a suspended call is a continuation the runner
 * holds until its result comes back: `StartWithInput` is `BeginStart` (reset,
 * validation, the scene request), `FinishFetch` (the response arrives) and
 * `FinishRegistration` (marker registration returns), and a spawn pass
 * waiting on `LoadGlb` stays in `passes` until `FinishLoad` delivers the
 * outcome. Tracking events (`OnChanged`) and new activations may arrive
 * between any two steps; nothing stops a new activation while calls of an
 * earlier one are still suspended.
 */
module SceneRunner {
  import opened Results
  import opened SceneModels
  import opened SpawnPlan
  import opened RunnerState
  import Backend

  class ARSceneRunner {
    /** Whether `imageManager` and `worldRoot` are wired in the inspector. */
    const hasImageManager: bool
    const hasWorldRoot: bool
    /** The engine's `Vector3.normalized`. */
    const normalize: Vec3 -> Vec3

    var anchor: Option<Anchor>
    var spawned: map<string, Placed>
    var data: Option<Scene>
    var currentInput: Option<MarkerInput>
    var isSpawning: bool
    var sceneReady: bool
    var hasSpawned: bool
    /** How many times `OnChanged` is subscribed to `trackedImagesChanged`. */
    var handlers: nat
    /** The suspended `StartWithInput` calls, oldest first. */
    var starts: seq<StartStep>
    /** The suspended spawn passes, oldest first. */
    var passes: seq<SpawnFrame>

    /** URLs the backend was asked for, and marker registrations requested. */
    ghost var sceneRequests: seq<string>
    ghost var registrations: seq<Registration>
    /** Whether the last reset came while a call of an earlier activation was
        still suspended. */
    ghost var overlapped: bool
    /** The current pass: what it visits and, per visited item, the loader's outcome
        (None for an item it never handed to the loader). */
    ghost var passOrder: seq<Item>
    ghost var passAssets: seq<Option<Asset>>
    ghost var loads: seq<Option<LoadOutcome>>

    function Parent(): AnchorParent {
      if hasWorldRoot then WorldRoot else ImageManagerTransform
    }

    ghost predicate Valid()
      reads this
    {
      RunnerValid(overlapped, starts, sceneReady, anchor, data, hasImageManager, passes, isSpawning, hasSpawned,
                  passOrder, passAssets, loads, spawned, normalize)
    }

    constructor (hasImageManager: bool, hasWorldRoot: bool, normalize: Vec3 -> Vec3)
      ensures Valid() && !overlapped
      ensures this.hasImageManager == hasImageManager && this.hasWorldRoot == hasWorldRoot
      ensures !sceneReady && !hasSpawned && !isSpawning && anchor.None? && spawned == map[] && data.None?
      ensures handlers == 0 && starts == [] && passes == []
      ensures sceneRequests == [] && registrations == []
    {
      this.hasImageManager := hasImageManager;
      this.hasWorldRoot := hasWorldRoot;
      this.normalize := normalize;
      anchor, spawned, data, currentInput := None, map[], None, None;
      isSpawning, sceneReady, hasSpawned := false, false, false;
      handlers, starts, passes := 0, [], [];
      sceneRequests, registrations, overlapped := [], [], false;
      passOrder, passAssets, loads := [], [], [];
    }

    /** `OnEnable`: subscribe the handler when there is an image manager. */
    method OnEnable()
      modifies this`handlers
      ensures handlers == old(handlers) + (if hasImageManager then 1 else 0)
    {
      if hasImageManager {
        handlers := handlers + 1;
      }
    }

    /** `OnDisable`: unsubscribe it (a no-op when it is not subscribed). */
    method OnDisable()
      modifies this`handlers
      ensures handlers == if hasImageManager && old(handlers) > 0 then old(handlers) - 1 else old(handlers)
    {
      if hasImageManager && handlers > 0 {
        handlers := handlers - 1;
      }
    }

    /** The start of `StartWithInput`: every per-activation field is reset;
        suspended calls of earlier activations are left as they are. */
    method ResetActivation()
      requires Valid()
      modifies this`sceneReady, this`hasSpawned, this`isSpawning, this`anchor, this`spawned,
        this`overlapped, this`passOrder, this`passAssets, this`loads
      ensures Valid()
      ensures !sceneReady && !hasSpawned && !isSpawning && anchor.None? && spawned == map[]
      ensures overlapped == (starts != [] || passes != [])
    {
      ghost var pending := starts != [] || passes != [];
      ResetConsistent(pending, starts, data, hasImageManager, passes, normalize);
      sceneReady, hasSpawned, isSpawning, anchor, spawned := false, false, false, None, map[];
      overlapped, passOrder, passAssets, loads := pending, [], [], [];
    }

    /** The input checks of `StartWithInput`, then the scene request: a missing
        input or an empty marker id ends the activation; otherwise the input is
        kept and, given a backend base URL, the scene is requested and the call
        suspends. */
    method RequestScene(input: Option<MarkerInput>, escape: string -> string)
      requires Valid() && !sceneReady && !hasSpawned && !isSpawning && (overlapped || starts == [])
      modifies this`currentInput, this`sceneRequests, this`starts
      ensures Valid()
      ensures currentInput == if Accepts(input) then input else old(currentInput)
      ensures starts == old(starts) + if Accepts(input) && input.value.backendBase.Some? then [AwaitingScene] else []
      ensures sceneRequests == old(sceneRequests) +
        if Accepts(input) && input.value.backendBase.Some?
        then [Backend.RequestUrl(input.value.backendBase.value, input.value.markerId, escape)]
        else []
    {
      if input.None? {
        return;
      }
      if Strings.IsNullOrEmpty(input.value.markerId) {
        return;
      }
      currentInput := input;
      match input.value.backendBase
      case None =>
        // TrimEnd on a null base throws inside the fetch; the exception is caught
        return;
      case Some(b) =>
        sceneRequests := sceneRequests + [Backend.RequestUrl(b, input.value.markerId, escape)];
        starts := starts + [AwaitingScene];
        StartRequested(overlapped, old(starts), anchor, data, hasImageManager, passes,
                       passOrder, passAssets, loads, spawned, normalize);
    }

    /** `StartWithInput` up to its first `await`: reset every per-activation
        field, check the input, and send the scene request. */
    method BeginStart(input: Option<MarkerInput>, escape: string -> string)
      requires Valid()
      modifies this`sceneReady, this`hasSpawned, this`isSpawning, this`anchor, this`spawned, this`overlapped,
        this`passOrder, this`passAssets, this`loads, this`currentInput, this`sceneRequests, this`starts
      ensures Valid()
      ensures !sceneReady && !hasSpawned && !isSpawning && anchor.None? && spawned == map[]
      ensures overlapped == (old(starts) != [] || passes != [])
      ensures currentInput == if Accepts(input) then input else old(currentInput)
      ensures starts == old(starts) + if Accepts(input) && input.value.backendBase.Some? then [AwaitingScene] else []
      ensures sceneRequests == old(sceneRequests) +
        if Accepts(input) && input.value.backendBase.Some?
        then [Backend.RequestUrl(input.value.backendBase.value, input.value.markerId, escape)]
        else []
    {
      ResetActivation();
      RequestScene(input, escape);
    }

    /** The scene response of suspended start `k` arrives: keep the scene, then
        ask for the marker's registration unless the fetch failed or returned
        no scene or no marker, which ends that start. */
    method FinishFetch(k: nat, response: Backend.Response, decode: string -> Backend.Decoded)
      requires Valid() && k < |starts| && starts[k] == AwaitingScene
      modifies this`data, this`registrations, this`starts
      ensures Valid()
      ensures var fetched := Backend.SceneFromResponse(response, decode);
        var registers := fetched.Ok? && fetched.value.Some? && fetched.value.value.marker.Some?;
        && data == (if fetched.Ok? then fetched.value else old(data))
        && starts == (if registers then old(starts)[k := AwaitingRegistration] else Remove(old(starts), k))
        && registrations == old(registrations) +
             if registers
             then [Registration(data.value.marker.value.markerId, data.value.marker.value.imageUrl,
                                data.value.marker.value.physicalWidthM)]
             else []
    {
      var fetched := Backend.SceneFromResponse(response, decode);
      if fetched.Err? {
        starts := Remove(starts, k);
        return;
      }
      data := fetched.value;
      if data.None? || data.value.marker.None? {
        starts := Remove(starts, k);
        return;
      }
      var m := data.value.marker.value;
      registrations := registrations + [Registration(m.markerId, m.imageUrl, m.physicalWidthM)];
      starts := starts[k := AwaitingRegistration];
    }

    /** Registration of suspended start `k` returns: subscribe once more
        (unsubscribe, then subscribe) and mark the scene ready, unless it failed
        or there is no image manager. Either way that start ends. */
    method FinishRegistration(k: nat, registered: bool)
      requires Valid() && k < |starts| && starts[k] == AwaitingRegistration
      modifies this`starts, this`handlers, this`sceneReady
      ensures Valid()
      ensures starts == Remove(old(starts), k)
      ensures sceneReady == (old(sceneReady) || (registered && hasImageManager))
      ensures handlers == if registered && hasImageManager then (if old(handlers) > 0 then old(handlers) else 1) else old(handlers)
    {
      starts := Remove(starts, k);
      if !registered {
        return;
      }
      if !hasImageManager {
        return;
      }
      handlers := if handlers > 0 then handlers - 1 else 0;
      handlers := handlers + 1;
      sceneReady := true;
    }

    /** Suspended start `k` runs to its end with no event in between: the
        scene response arrives and, for a scene with a marker, registration
        returns at once. */
    method ResumeStart(k: nat, response: Backend.Response, decode: string -> Backend.Decoded, registered: bool)
      requires Valid() && k < |starts| && starts[k] == AwaitingScene
      modifies this`data, this`registrations, this`starts, this`handlers, this`sceneReady
      ensures Valid()
      ensures starts == Remove(old(starts), k)
      ensures var fetched := Backend.SceneFromResponse(response, decode);
        var arrives := fetched.Ok? && fetched.value.Some? && fetched.value.value.marker.Some?;
        && sceneReady == (old(sceneReady) || (arrives && registered && hasImageManager))
        && |registrations| == |old(registrations)| + (if arrives then 1 else 0)
        && (arrives && registered && hasImageManager && old(handlers) <= 1 ==> handlers == 1)
    {
      var pending := |starts|;
      FinishFetch(k, response, decode);
      if |starts| == pending {
        FinishRegistration(k, registered);
        assert starts == Remove(old(starts), k);
      }
    }

    /** A whole `StartWithInput` with no event in between: the scene is ready
        exactly when every step succeeds, registration is requested only for a
        fetched scene with a marker, and at most one request is sent. The
        suspended calls of earlier activations are still suspended. */
    method StartWithInput(
      input: Option<MarkerInput>, escape: string -> string,
      send: string -> Backend.Response, decode: string -> Backend.Decoded, registered: bool)
      requires Valid()
      modifies this
      ensures Valid()
      ensures starts == old(starts) && passes == old(passes)
      ensures overlapped == (old(starts) != [] || old(passes) != [])
      ensures !hasSpawned && !isSpawning && anchor.None? && spawned == map[]
      ensures sceneReady <==> SceneArrives(input, escape, send, decode) && registered && hasImageManager
      ensures |registrations| == |old(registrations)| + (if SceneArrives(input, escape, send, decode) then 1 else 0)
      ensures sceneRequests == old(sceneRequests) +
        if Accepts(input) && input.value.backendBase.Some?
        then [Backend.RequestUrl(input.value.backendBase.value, input.value.markerId, escape)]
        else []
      ensures sceneReady && old(handlers) <= 1 ==> handlers == 1
    {
      var pending := |starts|;
      BeginStart(input, escape);
      if |starts| > pending {
        var id, b := input.value.markerId, input.value.backendBase.value;
        ResumeStart(pending, send(Backend.RequestUrl(b, id, escape)), decode, registered);
        assert Remove(old(starts) + [AwaitingScene], pending) == old(starts);
      }
    }

    twostate predicate SpawnStateUnchanged()
      reads this
    {
      && isSpawning == old(isSpawning) && hasSpawned == old(hasSpawned) && passes == old(passes)
      && passOrder == old(passOrder) && passAssets == old(passAssets) && loads == old(loads)
    }

    /** A pass started on the current scene suspended at its first load: one
        more continuation, waiting on the first item of the planned order it
        wants, and holding the images its foreach has left. */
    twostate predicate PassSuspended(resume: seq<TrackedImage>, expected: string)
      reads this
    {
      && |passes| == |old(passes)| + 1 && passes[..|old(passes)|] == old(passes)
      && data.Some? && Plan(data.value).Visit?
      && var f := passes[|old(passes)|];
         var plan := Plan(data.value);
         && f.resume == resume && f.expected == expected && f.order == plan.order
         && f.cursor == NextStop(plan.order, Some(plan.assets), spawned, 0) < |f.order|
    }

    /** The effect of the handler's foreach over `imgs`: the anchor follows the
        matching images; the first Tracking image starts the pass if none has
        started, and a pass that suspends leaves the later images for `FinishLoad`. */
    twostate predicate ProcessedImages(imgs: seq<TrackedImage>, expected: string)
      reads this
    {
      var j := FirstTrigger(imgs, expected);
      if old(hasSpawned) || old(isSpawning) || j == |imgs| then
           && anchor == AnchorAfter(old(anchor), imgs, expected, Parent())
           && SpawnStateUnchanged()
         else
           && (isSpawning ==>
                 && PassSuspended(imgs[j + 1..], expected)
                 && anchor == AnchorAfter(old(anchor), imgs[..j + 1], expected, Parent()))
           && (!isSpawning ==>
                 && hasSpawned && passes == old(passes)
                 && anchor == AnchorAfter(old(anchor), imgs, expected, Parent()))
    }

    /** `OnChanged`: the added images, then the updated ones, in given order. */
    method OnChanged(added: seq<TrackedImage>, updated: seq<TrackedImage>)
      requires Valid()
      modifies this`anchor, this`isSpawning, this`hasSpawned, this`passes, this`passOrder, this`passAssets, this`loads
      ensures Valid()
      ensures !old(sceneReady) || old(data).None? || old(data).value.marker.None? ==> unchanged(this)
      ensures old(sceneReady) && old(data).Some? && old(data).value.marker.Some? ==>
        ProcessedImages(added + updated, old(data).value.marker.value.markerId)
    {
      HandleTrackedImages(added + updated);
    }

    /** `HandleTrackedImages`: nothing happens unless the scene is ready with a
        marker; images of other markers change nothing. */
    method HandleTrackedImages(imgs: seq<TrackedImage>)
      requires Valid()
      modifies this`anchor, this`isSpawning, this`hasSpawned, this`passes, this`passOrder, this`passAssets, this`loads
      ensures Valid()
      ensures !old(sceneReady) || old(data).None? || old(data).value.marker.None? ==> unchanged(this)
      ensures old(sceneReady) && old(data).Some? && old(data).value.marker.Some? ==>
        ProcessedImages(imgs, old(data).value.marker.value.markerId)
      ensures old(data).Some? && old(data).value.marker.Some? &&
        (forall i :: 0 <= i < |imgs| ==> !Matches(imgs[i], old(data).value.marker.value.markerId))
        ==> unchanged(this)
    {
      if !sceneReady || data.None? || data.value.marker.None? {
        return;
      }
      var expected := data.value.marker.value.markerId;
      ProcessImages(imgs, expected);
      if forall i :: 0 <= i < |imgs| ==> !Matches(imgs[i], expected) {
        AnchorIgnoresOthers(old(anchor), imgs, expected, Parent());
      }
    }

    /** Create the anchor at the image's pose, or move it there. */
    method MoveAnchor(pose: Pose)
      requires Valid()
      modifies this`anchor
      ensures Valid()
      ensures anchor == Some(Reanchor(old(anchor), pose, Parent()))
    {
      anchor := Some(Reanchor(anchor, pose, Parent()));
    }

    /** The foreach of `HandleTrackedImages` for images that cannot start a
        pass: every image of the marker in a state other than None moves the
        anchor to its pose. */
    method FollowImages(imgs: seq<TrackedImage>, expected: string)
      requires Valid()
      modifies this`anchor
      ensures Valid()
      ensures anchor == AnchorAfter(old(anchor), imgs, expected, Parent())
    {
      var i := 0;
      while i < |imgs|
        invariant 0 <= i <= |imgs| && Valid()
        invariant anchor == AnchorAfter(old(anchor), imgs[..i], expected, Parent())
      {
        assert imgs[..i + 1][..i] == imgs[..i];
        var img := imgs[i];
        if img.name == expected && img.state != NotTracking {
          MoveAnchor(img.pose);
        }
        i := i + 1;
      }
      assert imgs[..i] == imgs;
    }

    /** The foreach of `HandleTrackedImages`. Once a pass has started, the
        Tracking guard fails for every later image, so the images up to the
        first Tracking one only move the anchor; that image starts the pass,
        and the images after it move the anchor unless the pass suspends,
        in which case `FinishLoad` takes them over. */
    method ProcessImages(imgs: seq<TrackedImage>, expected: string)
      requires Valid() && sceneReady && data.Some?
      modifies this`anchor, this`isSpawning, this`hasSpawned, this`passes, this`passOrder, this`passAssets, this`loads
      ensures Valid()
      ensures ProcessedImages(imgs, expected)
    {
      var j := FirstTrigger(imgs, expected);
      if hasSpawned || isSpawning || j == |imgs| {
        FollowImages(imgs, expected);
        return;
      }
      FollowImages(imgs[..j + 1], expected);
      assert imgs[..j + 1][j] == imgs[j];
      var suspended := StartPass(imgs[j + 1..], expected);
      if !suspended {
        FollowImages(imgs[j + 1..], expected);
        AnchorAfterAppend(old(anchor), imgs[..j + 1], imgs[j + 1..], expected, Parent());
        assert imgs[..j + 1] + imgs[j + 1..] == imgs;
      }
    }

    /** The guard passed: set `isSpawning` and run `EnsureSpawned` up to the
        first item it hands to the loader. A pass that never reaches the loader
        completes at once and sets `hasSpawned`. */
    method StartPass(resume: seq<TrackedImage>, expected: string) returns (suspended: bool)
      requires Valid() && sceneReady && data.Some? && anchor.Some? && !hasSpawned && !isSpawning
      modifies this`isSpawning, this`hasSpawned, this`passes, this`passOrder, this`passAssets, this`loads
      ensures Valid()
      ensures suspended <==> isSpawning
      ensures suspended ==> PassSuspended(resume, expected)
      ensures !suspended ==>
        && hasSpawned && passes == old(passes)
        && var plan := Plan(data.value);
           plan.Visit? ==> NextStop(plan.order, Some(plan.assets), spawned, 0) == |plan.order|
    {
      var plan := Plan(data.value);
      if plan.EarlyReturn? {
        PassStartKeepsValid(overlapped, starts, anchor, data, hasImageManager, passes, passOrder, passAssets,
                            loads, spawned, normalize, 0, resume, expected, passes, false, true, [], [], []);
        passOrder, passAssets, loads, hasSpawned := [], [], [], true;
        return false;
      }
      suspended := OpenPass(resume, expected);
    }

    /** `EnsureSpawned` on a plan with items: skip to the first item it hands
        to the loader and suspend there, or complete when there is none. */
    method OpenPass(resume: seq<TrackedImage>, expected: string) returns (suspended: bool)
      requires Valid() && sceneReady && data.Some? && anchor.Some? && !hasSpawned && !isSpawning
      requires Plan(data.value).Visit?
      modifies this`isSpawning, this`hasSpawned, this`passes, this`passOrder, this`passAssets, this`loads
      ensures Valid()
      ensures suspended <==> isSpawning
      ensures suspended ==> PassSuspended(resume, expected)
      ensures !suspended ==>
        && hasSpawned && passes == old(passes)
        && var plan := Plan(data.value);
           NextStop(plan.order, Some(plan.assets), spawned, 0) == |plan.order|
    {
      var plan := Plan(data.value);
      var c := NextWanted(plan.order, LiveAssets(data), spawned, 0);
      if c < |plan.order| {
        var frame := SpawnFrame(plan.order, c, resume, expected);
        PassStartKeepsValid(overlapped, starts, anchor, data, hasImageManager, passes, passOrder, passAssets,
                            loads, spawned, normalize, c, resume, expected, passes + [frame], true, false,
                            plan.order, plan.assets, Unrequested(c));
        passes, isSpawning, passOrder, passAssets, loads := passes + [frame], true, plan.order, plan.assets, Unrequested(c);
        return true;
      }
      PassStartKeepsValid(overlapped, starts, anchor, data, hasImageManager, passes, passOrder, passAssets,
                          loads, spawned, normalize, c, resume, expected, passes, false, true,
                          plan.order, plan.assets, Unrequested(c));
      hasSpawned, passOrder, passAssets, loads := true, plan.order, plan.assets, Unrequested(c);
      return false;
    }

    /** The loop of `EnsureSpawned` in suspended pass `k` after the awaited
        load: record the outcome, then go on to the next item it hands to the
        loader, or end the pass. Lookups read `data.assets` as it is now, and
        throw when it is null; the `finally` clears `isSpawning` either way. */
    method AdvancePass(k: nat, outcome: LoadOutcome) returns (step: PassStep)
      requires Valid() && k < |passes|
      modifies this`spawned, this`loads, this`passes, this`hasSpawned, this`isSpawning
      ensures Valid()
      ensures var f := old(passes[k]); var it := f.order[f.cursor];
        spawned == if outcome.Loaded?
                   then old(spawned)[it.asset3DId := Place(it.asset3DId, it, outcome.handle, normalize)]
                   else old(spawned)
      ensures var f := old(passes[k]);
        var c := NextStop(f.order, LiveAssets(data), spawned, f.cursor + 1);
        && step == (if c < |f.order| && LiveAssets(data).None? then Aborted else if c == |f.order| then Completed else Suspended)
        && passes == (if step == Suspended then old(passes)[k := f.(cursor := c)] else Remove(old(passes), k))
        && isSpawning == (step == Suspended && old(isSpawning))
        && hasSpawned == (step == Completed || old(hasSpawned))
      ensures !overlapped ==> step != Aborted
    {
      var f := passes[k];
      var it := f.order[f.cursor];
      var reg := if outcome.Loaded? then spawned[it.asset3DId := Place(it.asset3DId, it, outcome.handle, normalize)] else spawned;
      var live := LiveAssets(data);
      var c := NextWanted(f.order, live, reg, f.cursor + 1);
      if c < |f.order| && live.None? {
        EndPass(k, outcome, reg, c, false);
        step := Aborted;
      } else if c == |f.order| {
        EndPass(k, outcome, reg, c, true);
        step := Completed;
      } else {
        SuspendPass(k, outcome, reg, c);
        step := Suspended;
      }
    }

    /** Pass `k` ends after its load: it completed, or a lookup threw. */
    method EndPass(k: nat, outcome: LoadOutcome, reg: map<string, Placed>, c: nat, done: bool)
      requires Valid() && k < |passes|
      requires var f := passes[k]; var it := f.order[f.cursor];
        reg == if outcome.Loaded? then spawned[it.asset3DId := Place(it.asset3DId, it, outcome.handle, normalize)] else spawned
      requires var f := passes[k]; c == NextStop(f.order, LiveAssets(data), reg, f.cursor + 1)
      requires done <==> c == |passes[k].order|
      requires !done ==> c < |passes[k].order| && LiveAssets(data).None?
      modifies this`spawned, this`loads, this`passes, this`hasSpawned, this`isSpawning
      ensures Valid()
      ensures spawned == reg && passes == Remove(old(passes), k) && !isSpawning && hasSpawned == (done || old(hasSpawned))
      ensures !overlapped ==> done
    {
      var f := passes[k];
      ghost var loads' := if overlapped then loads else loads + [Some(outcome)] + Unrequested(c - f.cursor - 1);
      AdvanceKeepsValid(overlapped, starts, sceneReady, anchor, data, hasImageManager, passes, isSpawning,
                        hasSpawned, passOrder, passAssets, loads, spawned, normalize, k, outcome, c, reg,
                        Remove(passes, k), false, done || hasSpawned, loads');
      spawned, passes, isSpawning, hasSpawned, loads := reg, Remove(passes, k), false, done || hasSpawned, loads';
    }

    /** Pass `k` goes on to wait on item `c`. */
    method SuspendPass(k: nat, outcome: LoadOutcome, reg: map<string, Placed>, c: nat)
      requires Valid() && k < |passes|
      requires var f := passes[k]; var it := f.order[f.cursor];
        reg == if outcome.Loaded? then spawned[it.asset3DId := Place(it.asset3DId, it, outcome.handle, normalize)] else spawned
      requires var f := passes[k]; c == NextStop(f.order, LiveAssets(data), reg, f.cursor + 1)
      requires c < |passes[k].order| && LiveAssets(data).Some?
      modifies this`spawned, this`loads, this`passes
      ensures Valid()
      ensures spawned == reg && passes == old(passes)[k := old(passes[k]).(cursor := c)]
    {
      var f := passes[k];
      ghost var loads' := if overlapped then loads else loads + [Some(outcome)] + Unrequested(c - f.cursor - 1);
      AdvanceKeepsValid(overlapped, starts, sceneReady, anchor, data, hasImageManager, passes, isSpawning,
                        hasSpawned, passOrder, passAssets, loads, spawned, normalize, k, outcome, c, reg,
                        passes[k := f.(cursor := c)], isSpawning, hasSpawned, loads');
      spawned, passes, loads := reg, passes[k := f.(cursor := c)], loads';
    }

    /** The awaited `LoadGlb` of suspended pass `k` returns: a loaded object is
        placed and recorded under its id; a null result or an exception skips
        the item. Once the pass completes, `hasSpawned` is set and the foreach
        visits the images it had left, as they are `now`; since `hasSpawned`
        holds, none starts a pass and each matching one moves the anchor. A
        pass that throws takes the rest of its foreach with it. */
    method FinishLoad(k: nat, outcome: LoadOutcome, now: seq<TrackedImage>) returns (step: PassStep)
      requires Valid() && k < |passes|
      requires |now| == |passes[k].resume| && forall i :: 0 <= i < |now| ==> now[i].name == passes[k].resume[i].name
      modifies this`anchor, this`isSpawning, this`hasSpawned, this`spawned, this`passes, this`loads
      ensures Valid()
      ensures var it := old(passes[k]).order[old(passes[k]).cursor];
        spawned == if outcome.Loaded?
                   then old(spawned)[it.asset3DId := Place(it.asset3DId, it, outcome.handle, normalize)]
                   else old(spawned)
      ensures var f := old(passes[k]);
        var c := NextStop(f.order, LiveAssets(data), spawned, f.cursor + 1);
        && step == (if c < |f.order| && LiveAssets(data).None? then Aborted else if c == |f.order| then Completed else Suspended)
        && passes == (if step == Suspended then old(passes)[k := f.(cursor := c)] else Remove(old(passes), k))
        && isSpawning == (step == Suspended && old(isSpawning))
        && hasSpawned == (step == Completed || old(hasSpawned))
        && anchor == (if step == Completed then AnchorAfter(old(anchor), now, f.expected, Parent()) else old(anchor))
      ensures !overlapped ==> step != Aborted
    {
      var expected := passes[k].expected;
      step := AdvancePass(k, outcome);
      if step == Completed {
        FollowImages(now, expected);
      }
    }
  }

  /** Every spawned object is named `ARItem_<id>`, has its scale in [0.05, 1.5]
      and lies within distance 2 of the anchor, given the engine's `normalized`;
      this holds however activations overlap. */
  lemma SpawnedAreWellPlaced(r: ARSceneRunner)
    requires r.Valid() && IsNormalizer(r.normalize)
    ensures WellPlaced(r.spawned)
  {
  }

  /** With no overlapping activation, at most one start and one pass are
      suspended, `isSpawning` holds exactly while the pass is, and no pass
      runs once `hasSpawned` is set. */
  lemma AtMostOnePass(r: ARSceneRunner)
    requires r.Valid() && !r.overlapped
    ensures |r.starts| <= 1 && |r.passes| <= 1
    ensures r.isSpawning <==> r.passes != []
    ensures !(r.isSpawning && r.hasSpawned)
  {
  }

  /** Only ids of the fetched scene's items whose asset exists are ever spawned. */
  lemma SpawnedComeFromScene(r: ARSceneRunner, k: string)
    requires r.Valid() && !r.overlapped && k in r.spawned
    ensures r.data.Some? && r.data.value.items.Some? && r.data.value.assets.Some?
    ensures k != "" && FindAsset(r.data.value.assets.value, k).Some?
    ensures exists it :: Some(it) in r.data.value.items.value && it.asset3DId == k
  {
    var order := r.passOrder[..|r.loads|];
    SpawnedKeys(order, r.passAssets, r.loads, r.normalize, k);
    var i :| 0 <= i < |order| && Succeeds(order[i], r.passAssets, r.loads[i], k);
    assert order[i] in r.passOrder;
    OrderItemsSortsItems(r.data.value.items.value);
  }

  /** Once `hasSpawned` is set, the registry is what visiting the whole planned
      order with the loader's outcomes yields; a pass that returned early
      leaves it empty. */
  lemma FinishedPassIsPlanned(r: ARSceneRunner)
    requires r.Valid() && !r.overlapped && r.hasSpawned
    ensures |r.loads| == |r.passOrder|
    ensures r.spawned == SpawnAll(r.passOrder, r.passAssets, r.loads, r.normalize)
    ensures r.data.Some? && (Plan(r.data.value).EarlyReturn? ==> r.spawned == map[])
    ensures r.data.Some? && Plan(r.data.value).Visit? ==>
      r.passOrder == Plan(r.data.value).order && r.passAssets == Plan(r.data.value).assets
  {
    assert r.passOrder[..|r.loads|] == r.passOrder;
  }
}
