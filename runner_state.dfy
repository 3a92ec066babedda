/**
 * The values `ARSceneRunner` works with: tracked images, the anchor, the
 * marker input, the continuations of suspended calls, and the invariants that
 * tie a spawn pass in progress to the specification of `EnsureSpawned`.
 */
module RunnerState {
  import opened Results
  import opened SceneModels
  import opened SpawnPlan
  import Backend
  import Strings

  /** The engine's `TrackingState`; `NotTracking` is its `None`. */
  datatype TrackingState = NotTracking | Limited | Tracking

  datatype Quaternion = Quaternion(x: real, y: real, z: real, w: real)
  datatype Pose = Pose(position: Vec3, rotation: Quaternion)

  /** An `ARTrackedImage` as the handler reads it: reference name, state, world pose. */
  datatype TrackedImage = TrackedImage(name: string, state: TrackingState, pose: Pose)

  /** The anchor's parent: the configured world root, or else the image manager's transform. */
  datatype AnchorParent = WorldRoot | ImageManagerTransform
  datatype Anchor = Anchor(parent: AnchorParent, pose: Pose)

  /** `MarkerInput` from the host; the base URL may be null. */
  datatype MarkerInput = MarkerInput(markerId: string, backendBase: Option<string>)

  /** One call of `RuntimeImageLoader.SetupMarkerFromUrl`. */
  datatype Registration = Registration(name: string, imageUrl: string, physicalWidthM: real)

  /** Where a suspended `StartWithInput` waits: on the scene fetch, or on the
      marker registration. */
  datatype StartStep = AwaitingScene | AwaitingRegistration

  /** A `HandleTrackedImages` call suspended in `LoadGlb`: the ordered list
      `EnsureSpawned` made, the item it waits for, the images its foreach has
      still to visit and the marker name it captured. */
  datatype SpawnFrame = SpawnFrame(order: seq<Item>, cursor: nat, resume: seq<TrackedImage>, expected: string)

  /** How `EnsureSpawned` goes on after a load: it waits on the next item, it
      has visited every item, or an exception left it. */
  datatype PassStep = Suspended | Completed | Aborted

  /** `s` without its `k`-th element: a continuation that has run to its end. */
  function Remove<T>(s: seq<T>, k: nat): (r: seq<T>)
    requires k < |s|
    ensures |r| == |s| - 1
    ensures forall i :: 0 <= i < |r| ==> r[i] == if i < k then s[i] else s[i + 1]
  {
    s[..k] + s[k + 1..]
  }

  /** `data.assets` as the loop reads it at a lookup; None when `data` or its
      asset list is null, where the lookup throws. */
  function LiveAssets(data: Option<Scene>): Option<seq<Option<Asset>>> {
    if data.None? then None else data.value.assets
  }

  /** The two input checks of `StartWithInput`. */
  predicate Accepts(input: Option<MarkerInput>) {
    input.Some? && !Strings.IsNullOrEmpty(input.value.markerId)
  }

  /** The scene arrives with a marker, so registration is attempted. */
  predicate SceneArrives(input: Option<MarkerInput>, escape: string -> string,
                         send: string -> Backend.Response, decode: string -> Backend.Decoded)
  {
    && Accepts(input)
    && var fetched := Backend.FetchSceneByMarkerId(input.value.backendBase, input.value.markerId, escape, send, decode);
       fetched.Ok? && fetched.value.Some? && fetched.value.value.marker.Some?
  }

  /** An image that moves the anchor: the expected name (ordinal) and a state other than None. */
  predicate Matches(img: TrackedImage, expected: string) {
    img.name == expected && img.state != NotTracking
  }

  /** An image that may start the spawn pass. */
  predicate Triggers(img: TrackedImage, expected: string) {
    img.name == expected && img.state == Tracking
  }

  /** Create the anchor at `pose`, or move the existing one there. */
  function Reanchor(a: Option<Anchor>, pose: Pose, parent: AnchorParent): Anchor {
    if a.None? then Anchor(parent, pose) else a.value.(pose := pose)
  }

  /** The anchor after the foreach over `imgs`. */
  function AnchorAfter(a: Option<Anchor>, imgs: seq<TrackedImage>, expected: string, parent: AnchorParent): Option<Anchor>
    decreases |imgs|
  {
    if imgs == [] then a
    else
      var n := |imgs| - 1;
      var prev := AnchorAfter(a, imgs[..n], expected, parent);
      if Matches(imgs[n], expected) then Some(Reanchor(prev, imgs[n].pose, parent)) else prev
  }

  /** Following `xs` and then `ys` is following `xs + ys`. */
  lemma {:induction false} AnchorAfterAppend(a: Option<Anchor>, xs: seq<TrackedImage>, ys: seq<TrackedImage>,
                                             expected: string, parent: AnchorParent)
    ensures AnchorAfter(AnchorAfter(a, xs, expected, parent), ys, expected, parent) == AnchorAfter(a, xs + ys, expected, parent)
    decreases |ys|
  {
    if ys == [] {
      assert xs + ys == xs;
    } else {
      var n := |ys| - 1;
      AnchorAfterAppend(a, xs, ys[..n], expected, parent);
      assert (xs + ys)[..|xs| + n] == xs + ys[..n];
      assert (xs + ys)[|xs| + n] == ys[n];
    }
  }

  /** Images of other markers, or in state None, leave the anchor alone. */
  lemma {:induction false} AnchorIgnoresOthers(a: Option<Anchor>, imgs: seq<TrackedImage>, expected: string, parent: AnchorParent)
    requires forall i :: 0 <= i < |imgs| ==> !Matches(imgs[i], expected)
    ensures AnchorAfter(a, imgs, expected, parent) == a
    decreases |imgs|
  {
    if imgs != [] {
      var n := |imgs| - 1;
      assert forall i :: 0 <= i < n ==> imgs[..n][i] == imgs[i];
      AnchorIgnoresOthers(a, imgs[..n], expected, parent);
    }
  }

  /** The anchor is created once, under one parent, and afterwards only moves. */
  lemma {:induction false} AnchorParentIsFixed(a: Option<Anchor>, imgs: seq<TrackedImage>, expected: string, parent: AnchorParent)
    ensures a.Some? ==> AnchorAfter(a, imgs, expected, parent).Some?
    ensures AnchorAfter(a, imgs, expected, parent).Some? ==>
      AnchorAfter(a, imgs, expected, parent).value.parent == (if a.Some? then a.value.parent else parent)
    decreases |imgs|
  {
    if imgs != [] {
      AnchorParentIsFixed(a, imgs[..|imgs| - 1], expected, parent);
    }
  }

  /** After the foreach the anchor sits at the pose of the last matching image. */
  lemma {:induction false} AnchorAtLastMatch(a: Option<Anchor>, imgs: seq<TrackedImage>, expected: string, parent: AnchorParent, i: nat)
    requires i < |imgs| && Matches(imgs[i], expected)
    requires forall j :: i < j < |imgs| ==> !Matches(imgs[j], expected)
    ensures AnchorAfter(a, imgs, expected, parent) ==
      Some(Anchor(if a.Some? then a.value.parent else parent, imgs[i].pose))
    decreases |imgs|
  {
    var n := |imgs| - 1;
    if i < n {
      assert forall j :: i < j < n ==> imgs[..n][j] == imgs[j];
      AnchorAtLastMatch(a, imgs[..n], expected, parent, i);
    } else {
      AnchorParentIsFixed(a, imgs[..n], expected, parent);
    }
  }

  /** The position of the first image that may start the pass, or |imgs|. */
  function FirstTrigger(imgs: seq<TrackedImage>, expected: string): (j: nat)
    ensures j <= |imgs|
    ensures forall i :: 0 <= i < j ==> !Triggers(imgs[i], expected)
    ensures j < |imgs| ==> Triggers(imgs[j], expected)
  {
    if imgs == [] then 0
    else if Triggers(imgs[0], expected) then 0
    else
      var j := FirstTrigger(imgs[1..], expected);
      assert forall i :: 1 <= i < |imgs| ==> imgs[i] == imgs[1..][i - 1];
      1 + j
  }

  /** How a pass's order and assets follow from what `EnsureSpawned` decides. */
  predicate PlanMatches(p: PassPlan, order: seq<Item>, assets: seq<Option<Asset>>) {
    if p.EarlyReturn? then order == [] else order == p.order && assets == p.assets
  }

  /** The registry is what visiting the first |loads| items with these
      outcomes yields, and the loader was asked exactly for the wanted items. */
  ghost predicate PassConsistent(order: seq<Item>, assets: seq<Option<Asset>>, loads: seq<Option<LoadOutcome>>,
                                 reg: map<string, Placed>, norm: Vec3 -> Vec3)
  {
    && |loads| <= |order|
    && reg == SpawnAll(order[..|loads|], assets, loads, norm)
    && LoadsMatchRequests(order[..|loads|], assets, loads, norm)
  }

  /** A pass opens on the empty registry and skips the items it does not want. */
  lemma PassOpens(order: seq<Item>, assets: seq<Option<Asset>>, loads: seq<Option<LoadOutcome>>, reg: map<string, Placed>,
                  norm: Vec3 -> Vec3, c: nat)
    requires c <= |order| && reg == map[] && loads == Unrequested(c)
    requires forall i :: 0 <= i < c ==> !Wants(map[], order[i], assets)
    ensures PassConsistent(order, assets, loads, reg, norm)
  {
    assert order[..0] == [];
    SkipUnwanted(order, assets, [], norm, c);
    assert [] + Unrequested(c) == Unrequested(c);
  }

  /** The awaited item's outcome is recorded, then the items up to the next
      wanted one are skipped. */
  lemma PassAdvances(order: seq<Item>, assets: seq<Option<Asset>>, before: seq<Option<LoadOutcome>>, after: seq<Option<LoadOutcome>>,
                     prev: map<string, Placed>, reg: map<string, Placed>, norm: Vec3 -> Vec3, outcome: LoadOutcome, c: nat)
    requires PassConsistent(order, assets, before, prev, norm)
    requires |before| < c <= |order| && Wants(prev, order[|before|], assets)
    requires reg == StepItem(prev, order[|before|], assets, Some(outcome), norm)
    requires forall i :: |before| < i < c ==> !Wants(reg, order[i], assets)
    requires after == before + [Some(outcome)] + Unrequested(c - |before| - 1)
    ensures PassConsistent(order, assets, after, reg, norm)
  {
    var n := |before|;
    var next := before + [Some(outcome)];
    assert order[..n + 1][..n] == order[..n];
    assert next[..n] == before;
    assert SpawnAll(order[..n + 1], assets, next, norm) == reg;
    SkipUnwanted(order, assets, next, norm, c);
  }

  /** At most one pass is suspended, and `isSpawning` holds exactly while it
      waits on the loader, for a wanted item; a finished pass has visited
      every item. */
  predicate FrameConsistent(passes: seq<SpawnFrame>, isSpawning: bool, hasSpawned: bool,
                            order: seq<Item>, assets: seq<Option<Asset>>, visited: nat, reg: map<string, Placed>)
  {
    && |passes| <= 1
    && (isSpawning <==> passes != [])
    && !(isSpawning && hasSpawned)
    && (!isSpawning && !hasSpawned ==> order == [] && visited == 0)
    && (hasSpawned ==> visited == |order|)
    && (passes != [] ==>
          && passes[0].order == order
          && passes[0].cursor == visited < |order|
          && Wants(reg, order[visited], assets))
  }

  /** A suspended pass gets the outcome of item `cursor`: the registry takes
      the loaded object, the outcome is recorded and the skipped items up to
      `c`, the next one it stops at, get none. The lookups read the scene's
      own asset list, so none throws; the pass then waits on `c` or, at the
      end of the order, is finished. */
  lemma LoadRecorded(f: SpawnFrame, starts: seq<StartStep>, sceneReady: bool, anchor: Option<Anchor>, data: Option<Scene>,
                     hasImageManager: bool, order: seq<Item>, assets: seq<Option<Asset>>, norm: Vec3 -> Vec3, outcome: LoadOutcome, c: nat,
                     isSpawning: bool, hasSpawned: bool, loads: seq<Option<LoadOutcome>>, prev: map<string, Placed>,
                     passes': seq<SpawnFrame>, isSpawning': bool, hasSpawned': bool, loads': seq<Option<LoadOutcome>>,
                     reg: map<string, Placed>)
    requires RunnerConsistent(starts, sceneReady, anchor, data, hasImageManager, [f], isSpawning, hasSpawned,
                              order, assets, loads, prev, norm)
    requires var it := f.order[f.cursor];
      reg == if outcome.Loaded? then prev[it.asset3DId := Place(it.asset3DId, it, outcome.handle, norm)] else prev
    requires f.cursor + 1 <= c <= |f.order|
    requires forall i :: f.cursor + 1 <= i < c ==> !Stops(reg, f.order[i], LiveAssets(data))
    requires c < |f.order| ==> Stops(reg, f.order[c], LiveAssets(data))
    requires loads' == loads + [Some(outcome)] + Unrequested(c - f.cursor - 1)
    requires passes' == (if c == |f.order| then [] else [f.(cursor := c)])
    requires isSpawning' == !(c == |f.order|) && hasSpawned' == (c == |f.order|)
    ensures RunnerConsistent(starts, sceneReady, anchor, data, hasImageManager, passes', isSpawning', hasSpawned',
                             order, assets, loads', reg, norm)
  {
    assert LiveAssets(data) == Some(assets);
    assert reg == StepItem(prev, order[|loads|], assets, Some(outcome), norm);
    PassAdvances(order, assets, loads, loads', prev, reg, norm, outcome, c);
  }

  /** While a pass of the current activation is suspended, the asset list the
      loop reads is the one it was planned with. */
  lemma PassReadsPlannedAssets(starts: seq<StartStep>, sceneReady: bool, anchor: Option<Anchor>, data: Option<Scene>,
                               hasImageManager: bool, passes: seq<SpawnFrame>, isSpawning: bool, hasSpawned: bool,
                               order: seq<Item>, assets: seq<Option<Asset>>, loads: seq<Option<LoadOutcome>>,
                               reg: map<string, Placed>, norm: Vec3 -> Vec3)
    requires RunnerConsistent(starts, sceneReady, anchor, data, hasImageManager, passes, isSpawning, hasSpawned,
                              order, assets, loads, reg, norm)
    requires passes != []
    ensures LiveAssets(data) == Some(assets)
  {
  }

  /** A pass starts only once the scene is ready and anchored, and visits what
      `EnsureSpawned` plans for the fetched scene; a ready scene has a marker. */
  predicate ActivationConsistent(starts: seq<StartStep>, sceneReady: bool, started: bool, anchor: Option<Anchor>,
                                 data: Option<Scene>, order: seq<Item>, assets: seq<Option<Asset>>, hasImageManager: bool)
  {
    && |starts| <= 1
    && (started ==> sceneReady && anchor.Some? && data.Some? && PlanMatches(Plan(data.value), order, assets))
    && (starts != [] ==> !sceneReady && !started)
    && (starts == [AwaitingRegistration] ==> data.Some? && data.value.marker.Some?)
    && (sceneReady ==> hasImageManager && data.Some? && data.value.marker.Some?)
  }


  /** The invariant of an `ARSceneRunner` whose activation no call of an
      earlier one overlaps, over its fields. */
  ghost predicate RunnerConsistent(starts: seq<StartStep>, sceneReady: bool, anchor: Option<Anchor>, data: Option<Scene>,
                                   hasImageManager: bool, passes: seq<SpawnFrame>, isSpawning: bool, hasSpawned: bool,
                                   order: seq<Item>, assets: seq<Option<Asset>>, loads: seq<Option<LoadOutcome>>,
                                   reg: map<string, Placed>, norm: Vec3 -> Vec3)
  {
    && PassConsistent(order, assets, loads, reg, norm)
    && FrameConsistent(passes, isSpawning, hasSpawned, order, assets, |loads|, reg)
    && ActivationConsistent(starts, sceneReady, isSpawning || hasSpawned, anchor, data, order, assets, hasImageManager)
  }


  /** Every suspended pass waits on an item of its order. */
  predicate FramesWellFormed(passes: seq<SpawnFrame>) {
    forall i :: 0 <= i < |passes| ==> passes[i].cursor < |passes[i].order|
  }

  /** The invariant of an `ARSceneRunner`: the suspended passes wait on real
      items, spawned objects are always well placed, and, unless a reset came
      while calls of an earlier activation were suspended, the activation is
      consistent. */
  ghost predicate RunnerValid(overlapped: bool, starts: seq<StartStep>, sceneReady: bool, anchor: Option<Anchor>,
                              data: Option<Scene>, hasImageManager: bool, passes: seq<SpawnFrame>, isSpawning: bool,
                              hasSpawned: bool, order: seq<Item>, assets: seq<Option<Asset>>,
                              loads: seq<Option<LoadOutcome>>, reg: map<string, Placed>, norm: Vec3 -> Vec3)
  {
    && FramesWellFormed(passes)
    && (IsNormalizer(norm) ==> WellPlaced(reg))
    && (!overlapped ==>
          RunnerConsistent(starts, sceneReady, anchor, data, hasImageManager, passes, isSpawning, hasSpawned,
                           order, assets, loads, reg, norm))
  }

  /** Right after the per-activation reset the invariant holds whatever scene
      was kept from before; the activation counts as overlapped exactly when
      a call of an earlier one is still suspended. */
  lemma ResetConsistent(overlapped: bool, starts: seq<StartStep>, data: Option<Scene>, hasImageManager: bool,
                        passes: seq<SpawnFrame>, norm: Vec3 -> Vec3)
    requires FramesWellFormed(passes)
    requires overlapped == (starts != [] || passes != [])
    ensures RunnerValid(overlapped, starts, false, None, data, hasImageManager, passes, false, false, [], [], [], map[], norm)
  {
    var none: seq<Item> := [];
    assert none[..0] == none;
  }

  /** Sending the scene request suspends one more start. */
  lemma StartRequested(overlapped: bool, starts: seq<StartStep>, anchor: Option<Anchor>, data: Option<Scene>,
                       hasImageManager: bool, passes: seq<SpawnFrame>, order: seq<Item>, assets: seq<Option<Asset>>,
                       loads: seq<Option<LoadOutcome>>, reg: map<string, Placed>, norm: Vec3 -> Vec3)
    requires RunnerValid(overlapped, starts, false, anchor, data, hasImageManager, passes, false, false,
                         order, assets, loads, reg, norm)
    requires overlapped || starts == []
    ensures RunnerValid(overlapped, starts + [AwaitingScene], false, anchor, data, hasImageManager, passes, false, false,
                        order, assets, loads, reg, norm)
  {
    assert starts == [] ==> starts + [AwaitingScene] == [AwaitingScene];
  }

  /** Starting a pass keeps the invariant: a pass that returns early or wants
      no item is finished at once; otherwise it suspends on the first item it
      wants, with the plan's order and assets. */
  lemma PassStartKeepsValid(overlapped: bool, starts: seq<StartStep>, anchor: Option<Anchor>, data: Option<Scene>,
                            hasImageManager: bool, passes: seq<SpawnFrame>, order: seq<Item>, assets: seq<Option<Asset>>,
                            loads: seq<Option<LoadOutcome>>, reg: map<string, Placed>, norm: Vec3 -> Vec3,
                            c: nat, resume: seq<TrackedImage>, expected: string,
                            passes': seq<SpawnFrame>, isSpawning': bool, hasSpawned': bool,
                            order': seq<Item>, assets': seq<Option<Asset>>, loads': seq<Option<LoadOutcome>>)
    requires RunnerValid(overlapped, starts, true, anchor, data, hasImageManager, passes, false, false,
                         order, assets, loads, reg, norm)
    requires anchor.Some? && data.Some?
    requires var plan := Plan(data.value);
      if plan.EarlyReturn? then
        passes' == passes && !isSpawning' && hasSpawned' && order' == [] && assets' == [] && loads' == []
      else
        && c == NextStop(plan.order, LiveAssets(data), reg, 0)
        && order' == plan.order && assets' == plan.assets && loads' == Unrequested(c)
        && (c < |plan.order| ==> passes' == passes + [SpawnFrame(plan.order, c, resume, expected)] && isSpawning' && !hasSpawned')
        && (c == |plan.order| ==> passes' == passes && !isSpawning' && hasSpawned')
    ensures RunnerValid(overlapped, starts, true, anchor, data, hasImageManager, passes', isSpawning', hasSpawned',
                        order', assets', loads', reg, norm)
  {
    var plan := Plan(data.value);
    if plan.Visit? {
      NextStopIsFirstStop(plan.order, LiveAssets(data), reg, 0);
      assert LiveAssets(data) == Some(plan.assets);
      if !overlapped {
        PassOpens(order', assets', loads', reg, norm, c);
      }
      if c < |plan.order| {
        assert passes' == passes + [SpawnFrame(plan.order, c, resume, expected)];
        assert forall i :: 0 <= i < |passes| ==> passes'[i] == passes[i];
      }
    } else {
      var none: seq<Item> := [];
      assert none[..0] == none;
    }
  }

  /** Suspended pass `k` goes on after its load: with the outcome recorded, it
      waits on the next item it stops at, or it completes, or a lookup on a
      null asset list throws. The last cannot happen when no activation
      overlaps, since the loop then reads the asset list it was planned with. */
  lemma AdvanceKeepsValid(overlapped: bool, starts: seq<StartStep>, sceneReady: bool, anchor: Option<Anchor>,
                          data: Option<Scene>, hasImageManager: bool, passes: seq<SpawnFrame>, isSpawning: bool,
                          hasSpawned: bool, order: seq<Item>, assets: seq<Option<Asset>>,
                          loads: seq<Option<LoadOutcome>>, prev: map<string, Placed>, norm: Vec3 -> Vec3,
                          k: nat, outcome: LoadOutcome, c: nat, reg: map<string, Placed>,
                          passes': seq<SpawnFrame>, isSpawning': bool, hasSpawned': bool, loads': seq<Option<LoadOutcome>>)
    requires RunnerValid(overlapped, starts, sceneReady, anchor, data, hasImageManager, passes, isSpawning, hasSpawned,
                         order, assets, loads, prev, norm)
    requires k < |passes|
    requires var f := passes[k]; var it := f.order[f.cursor];
      reg == if outcome.Loaded? then prev[it.asset3DId := Place(it.asset3DId, it, outcome.handle, norm)] else prev
    requires FramesWellFormed(passes) && c == NextStop(passes[k].order, LiveAssets(data), reg, passes[k].cursor + 1)
    requires var aborted := c < |passes[k].order| && LiveAssets(data).None?;
      var done := c == |passes[k].order|;
      && passes' == (if aborted || done then Remove(passes, k) else passes[k := passes[k].(cursor := c)])
      && isSpawning' == (if aborted || done then false else isSpawning)
      && hasSpawned' == (if done then true else hasSpawned)
      && loads' == (if overlapped then loads else loads + [Some(outcome)] + Unrequested(c - passes[k].cursor - 1))
    ensures !overlapped ==> !(c < |passes[k].order| && LiveAssets(data).None?)
    ensures RunnerValid(overlapped, starts, sceneReady, anchor, data, hasImageManager, passes', isSpawning', hasSpawned',
                        order, assets, loads', reg, norm)
  {
    var f := passes[k];
    NextStopIsFirstStop(f.order, LiveAssets(data), reg, f.cursor + 1);
    if outcome.Loaded? && IsNormalizer(norm) {
      PlaceKeepsWellPlaced(prev, f.order[f.cursor].asset3DId, f.order[f.cursor], outcome.handle, norm);
    }
    if !overlapped {
      assert passes == [f];
      PassReadsPlannedAssets(starts, sceneReady, anchor, data, hasImageManager, passes, isSpawning, hasSpawned,
                             order, assets, loads, prev, norm);
      var passes1 := if c == |f.order| then [] else [f.(cursor := c)];
      assert passes' == passes1;
      LoadRecorded(f, starts, sceneReady, anchor, data, hasImageManager, order, assets, norm, outcome, c,
                   isSpawning, hasSpawned, loads, prev, passes', isSpawning', hasSpawned', loads', reg);
    }
  }
}
