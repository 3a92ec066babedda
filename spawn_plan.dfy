/**
 * The value-level part of `ARSceneRunner.EnsureSpawned`: the stable order in
 * which items are visited, the asset lookup, transform sanitisation, and
 * `SpawnAll`, the registry a whole pass produces given what the loader
 * returned for each item it was handed.
 */
module SpawnPlan {
  import opened Results
  import opened SceneModels

  // ------------------------------------------------------------ stable order

  predicate SortedByOrder(s: seq<Item>) {
    forall i, j :: 0 <= i < j < |s| ==> s[i].orderIndex <= s[j].orderIndex
  }

  /** The items of `s` whose `orderIndex` is `k`, in their order in `s`. */
  function WithOrder(s: seq<Item>, k: int): seq<Item> {
    if s == [] then []
    else (if s[0].orderIndex == k then [s[0]] else []) + WithOrder(s[1..], k)
  }

  lemma SortedCons(a: Item, t: seq<Item>)
    requires SortedByOrder(t)
    requires forall e :: e in t ==> a.orderIndex <= e.orderIndex
    ensures SortedByOrder([a] + t)
  {
    var r := [a] + t;
    forall i, j | 0 <= i < j < |r| ensures r[i].orderIndex <= r[j].orderIndex {
      assert r[j] == t[j - 1];
      if i > 0 { assert r[i] == t[i - 1]; }
    }
  }

  /** Puts `x` before the first element whose key is at least its own. */
  function InsertByOrder(x: Item, s: seq<Item>): seq<Item> {
    if s == [] || x.orderIndex <= s[0].orderIndex then [x] + s
    else [s[0]] + InsertByOrder(x, s[1..])
  }

  /** Inserting into a sorted sequence keeps it sorted and adds exactly `x`. */
  lemma {:induction false} InsertKeepsSorted(x: Item, s: seq<Item>)
    requires SortedByOrder(s)
    ensures SortedByOrder(InsertByOrder(x, s))
    ensures multiset(InsertByOrder(x, s)) == multiset(s) + multiset{x}
    decreases |s|
  {
    if s == [] || x.orderIndex <= s[0].orderIndex {
      SortedCons(x, s);
    } else {
      var t := InsertByOrder(x, s[1..]);
      InsertKeepsSorted(x, s[1..]);
      forall e | e in t ensures s[0].orderIndex <= e.orderIndex {
        assert e in multiset(t);
      }
      SortedCons(s[0], t);
      assert s == [s[0]] + s[1..];
    }
  }

  /** `OrderBy(i => i.orderIndex)`: a stable sort on `orderIndex`. */
  function SortByOrder(s: seq<Item>): seq<Item> {
    if s == [] then [] else InsertByOrder(s[0], SortByOrder(s[1..]))
  }

  /** The sort yields a sorted permutation of its input. */
  lemma {:induction false} SortSortsAndPermutes(s: seq<Item>)
    ensures SortedByOrder(SortByOrder(s))
    ensures multiset(SortByOrder(s)) == multiset(s)
    decreases |s|
  {
    if s != [] {
      SortSortsAndPermutes(s[1..]);
      InsertKeepsSorted(s[0], SortByOrder(s[1..]));
      assert s == [s[0]] + s[1..];
    }
  }

  lemma WithOrderCons(a: Item, t: seq<Item>, k: int)
    ensures WithOrder([a] + t, k) == (if a.orderIndex == k then [a] else []) + WithOrder(t, k)
  {
    assert ([a] + t)[1..] == t;
  }

  lemma {:induction false} InsertKeepsOrderGroups(x: Item, s: seq<Item>, k: int)
    ensures WithOrder(InsertByOrder(x, s), k) == (if x.orderIndex == k then [x] else []) + WithOrder(s, k)
    decreases |s|
  {
    if s == [] || x.orderIndex <= s[0].orderIndex {
      WithOrderCons(x, s, k);
    } else {
      var t := InsertByOrder(x, s[1..]);
      InsertKeepsOrderGroups(x, s[1..], k);
      WithOrderCons(s[0], t, k);
      assert s == [s[0]] + s[1..];
      WithOrderCons(s[0], s[1..], k);
    }
  }

  /** Stability: items with equal `orderIndex` keep their original relative order. */
  lemma {:induction false} SortIsStable(s: seq<Item>, k: int)
    ensures WithOrder(SortByOrder(s), k) == WithOrder(s, k)
    decreases |s|
  {
    if s != [] {
      SortIsStable(s[1..], k);
      InsertKeepsOrderGroups(s[0], SortByOrder(s[1..]), k);
    }
  }

  /** The non-null entries of the item list, in order. */
  function NonNullItems(items: seq<Option<Item>>): seq<Item> {
    if items == [] then []
    else (if items[0].Some? then [items[0].value] else []) + NonNullItems(items[1..])
  }

  /** Exactly the non-null entries are kept, each as often as it occurs, and
      no more than there were entries. */
  lemma {:induction false} NonNullItemsKeepsItems(items: seq<Option<Item>>)
    ensures forall it :: multiset(NonNullItems(items))[it] == multiset(items)[Some(it)]
    ensures forall it :: it in NonNullItems(items) <==> Some(it) in items
    ensures |NonNullItems(items)| <= |items|
    decreases |items|
  {
    if items != [] {
      NonNullItemsKeepsItems(items[1..]);
      assert items == [items[0]] + items[1..];
      forall it ensures multiset(NonNullItems(items))[it] == multiset(items)[Some(it)] {
        assert multiset(items) == multiset{items[0]} + multiset(items[1..]);
      }
    }
  }

  /** The order in which the spawn pass visits items: null entries skipped,
      ascending `orderIndex`, ties in list order. */
  function OrderItems(items: seq<Option<Item>>): seq<Item> {
    SortByOrder(NonNullItems(items))
  }

  /** The visiting order is sorted, is a permutation of the non-null items
      (each as often as it occurs in the list), and keeps items with equal
      `orderIndex` in their list order. */
  lemma OrderItemsSortsItems(items: seq<Option<Item>>)
    ensures SortedByOrder(OrderItems(items))
    ensures multiset(OrderItems(items)) == multiset(NonNullItems(items))
    ensures forall it :: multiset(OrderItems(items))[it] == multiset(items)[Some(it)]
    ensures forall it :: it in OrderItems(items) <==> Some(it) in items
    ensures forall k :: WithOrder(OrderItems(items), k) == WithOrder(NonNullItems(items), k)
  {
    var nonNull := NonNullItems(items);
    SortSortsAndPermutes(nonNull);
    NonNullItemsKeepsItems(items);
    assert forall it :: it in OrderItems(items) <==> it in multiset(nonNull);
    forall k ensures WithOrder(OrderItems(items), k) == WithOrder(nonNull, k) {
      SortIsStable(nonNull, k);
    }
  }

  /** The exception `OrderBy(i => i.orderIndex)` raises on a null entry. */
  datatype OrderingError = NullItemDereferenced

  /** The ordering as the source writes it: the key selector reads `orderIndex`
      of every entry, so a null entry throws before any item is visited. */
  function OrderItemsAsWritten(items: seq<Option<Item>>): (r: Result<seq<Item>, OrderingError>)
    ensures r.Err? <==> None in items
    ensures r.Ok? ==> r.value == OrderItems(items)
  {
    if None in items then Err(NullItemDereferenced) else Ok(OrderItems(items))
  }

  /** A null entry makes the source's pass throw, although its loop means to skip it. */
  lemma NullItemAbortsPass(it: Item)
    ensures OrderItemsAsWritten([None, Some(it)]) == Err(NullItemDereferenced)
    ensures OrderItems([None, Some(it)]) == [it]
  {
    var items := [None, Some(it)];
    assert items[1..] == [Some(it)];
    assert items[1..][1..] == [];
    assert NonNullItems(items[1..]) == [it];
    assert NonNullItems(items) == [it];
    assert [it][1..] == [];
    assert SortByOrder([it]) == InsertByOrder(it, []);
  }

  // ------------------------------------------------------------ asset lookup

  /** Entry `a` is a non-null asset with id `key`. */
  predicate HasId(a: Option<Asset>, key: string) {
    a.Some? && a.value.asset3DId == key
  }

  /** `assets.FirstOrDefault(a => a.asset3DId == key)`, with null entries
      passed over the way the item loop passes over null items. */
  function FindAsset(assets: seq<Option<Asset>>, key: string): Option<Asset> {
    if assets == [] then None
    else if HasId(assets[0], key) then assets[0]
    else FindAsset(assets[1..], key)
  }

  /** `FirstOrDefault`: no asset has the id, or the first one that has it is found. */
  lemma {:induction false} FindAssetFindsFirst(assets: seq<Option<Asset>>, key: string)
    ensures FindAsset(assets, key).None? <==> forall i :: 0 <= i < |assets| ==> !HasId(assets[i], key)
    ensures FindAsset(assets, key).Some? ==>
      exists i :: (0 <= i < |assets| && assets[i] == FindAsset(assets, key) && HasId(assets[i], key)
                   && forall j :: 0 <= j < i ==> !HasId(assets[j], key))
    decreases |assets|
  {
    if assets != [] && !HasId(assets[0], key) {
      FindAssetFindsFirst(assets[1..], key);
      assert forall i :: 1 <= i < |assets| ==> assets[i] == assets[1..][i - 1];
      if FindAsset(assets, key).Some? {
        var i :| 0 <= i < |assets[1..]| && assets[1..][i] == FindAsset(assets, key) && HasId(assets[1..][i], key)
                 && forall j :: 0 <= j < i ==> !HasId(assets[1..][j], key);
        assert assets[i + 1] == assets[1..][i];
      }
    }
  }

  /** The exception the lookup predicate `a.asset3DId == key` raises on a null entry. */
  datatype LookupError = NullAssetDereferenced

  /** The lookup as the source writes it: `FirstOrDefault` applies its
      predicate to every entry up to the first match, null ones included. */
  function FindAssetAsWritten(assets: seq<Option<Asset>>, key: string): Result<Option<Asset>, LookupError> {
    if assets == [] then Ok(None)
    else if assets[0].None? then Err(NullAssetDereferenced)
    else if assets[0].value.asset3DId == key then Ok(assets[0])
    else FindAssetAsWritten(assets[1..], key)
  }

  /** The source's lookup throws exactly when a null entry comes before the
      first asset with the id, and otherwise finds what `FindAsset` finds. */
  lemma {:induction false} LookupAsWrittenThrows(assets: seq<Option<Asset>>, key: string)
    ensures FindAssetAsWritten(assets, key).Err? <==>
      exists i :: 0 <= i < |assets| && assets[i].None? && forall j :: 0 <= j < i ==> !HasId(assets[j], key)
    ensures FindAssetAsWritten(assets, key).Ok? ==> FindAssetAsWritten(assets, key).value == FindAsset(assets, key)
    decreases |assets|
  {
    if assets != [] && assets[0].Some? {
      var tail := assets[1..];
      assert forall i :: 1 <= i < |assets| ==> assets[i] == tail[i - 1];
      if HasId(assets[0], key) {
        assert forall i :: 0 <= i < |assets| && assets[i].None? ==> 0 < i && HasId(assets[0], key);
      } else {
        LookupAsWrittenThrows(tail, key);
        if FindAssetAsWritten(assets, key).Err? {
          var i :| 0 <= i < |tail| && tail[i].None? && forall j :: 0 <= j < i ==> !HasId(tail[j], key);
          assert assets[i + 1].None? && forall j :: 0 <= j < i + 1 ==> !HasId(assets[j], key);
        }
        if exists i :: 0 <= i < |assets| && assets[i].None? && forall j :: 0 <= j < i ==> !HasId(assets[j], key) {
          var i :| 0 <= i < |assets| && assets[i].None? && forall j :: 0 <= j < i ==> !HasId(assets[j], key);
          assert tail[i - 1].None? && forall j :: 0 <= j < i - 1 ==> !HasId(tail[j], key);
        }
      }
    }
  }

  /** A null entry ahead of the wanted asset makes the source's lookup throw,
      although the asset it looks for is in the list. */
  lemma NullAssetAbortsLookup(a: Asset)
    ensures FindAssetAsWritten([None, Some(a)], a.asset3DId) == Err(NullAssetDereferenced)
    ensures FindAsset([None, Some(a)], a.asset3DId) == Some(a)
  {
    var assets: seq<Option<Asset>> := [None, Some(a)];
    assert assets[1..] == [Some(a)];
  }

  // ------------------------------------------------------------ sanitisation

  const MinScale: real := 0.05
  const MaxScale: real := 1.5
  /** Substituted for a scale axis that is approximately zero. */
  const ZeroScaleSubstitute: real := 0.2
  /** Squared magnitude above which a position is pulled back (magnitude 2). */
  const MaxOffsetSquared: real := 4.0
  /** Distance from the anchor a pulled-back position ends up at. */
  const PulledBackDistance: real := 0.5

  /** `Mathf.Approximately(a, 0)` holds when |a| < 8 * `Mathf.Epsilon`. The
      epsilon depends on the platform: 2^-149 with subnormal floats, 2^-126
      where they are flushed to zero. The bound is taken here as 2^-146. */
  const ApproximatelyZeroBound: real := 1.0 / 89202980794122492566142873090593446023921664.0

  predicate ApproximatelyZero(a: real) {
    -ApproximatelyZeroBound < a < ApproximatelyZeroBound
  }

  /** `Mathf.Clamp`. */
  function Clamp(v: real, lo: real, hi: real): real {
    if v < lo then lo else if v > hi then hi else v
  }

  /** One scale axis: zero becomes 0.2, then everything is clamped to [0.05, 1.5]. */
  function SanitizeAxis(a: real): (r: real)
    ensures MinScale <= r <= MaxScale
    ensures ApproximatelyZero(a) ==> r == ZeroScaleSubstitute
    ensures !ApproximatelyZero(a) && MinScale <= a <= MaxScale ==> r == a
    ensures !ApproximatelyZero(a) && a < MinScale ==> r == MinScale
    ensures a > MaxScale ==> r == MaxScale
  {
    var b := if ApproximatelyZero(a) then ZeroScaleSubstitute else a;
    Clamp(b, MinScale, MaxScale)
  }

  predicate ScaleInRange(v: Vec3) {
    MinScale <= v.x <= MaxScale && MinScale <= v.y <= MaxScale && MinScale <= v.z <= MaxScale
  }

  function SanitizeScale(v: Vec3): (r: Vec3)
    ensures ScaleInRange(r)
  {
    Vec3(SanitizeAxis(v.x), SanitizeAxis(v.y), SanitizeAxis(v.z))
  }

  function SqMag(v: Vec3): real { v.x * v.x + v.y * v.y + v.z * v.z }
  function Scaled(v: Vec3, k: real): Vec3 { Vec3(k * v.x, k * v.y, k * v.z) }
  function Dot(u: Vec3, v: Vec3): real { u.x * v.x + u.y * v.y + u.z * v.z }
  function Cross(u: Vec3, v: Vec3): Vec3 {
    Vec3(u.y * v.z - u.z * v.y, u.z * v.x - u.x * v.z, u.x * v.y - u.y * v.x)
  }

  /** `u` points the same way as `v`: parallel and not opposite. */
  predicate SameDirection(u: Vec3, v: Vec3) {
    Cross(u, v) == Vec3(0.0, 0.0, 0.0) && Dot(u, v) > 0.0
  }

  /** What `Vector3.normalized` promises for vectors longer than 1e-5:
      a unit vector in the same direction. */
  ghost predicate IsNormalizer(norm: Vec3 -> Vec3) {
    forall v :: SqMag(v) > 0.0000000001 ==> SqMag(norm(v)) == 1.0 && SameDirection(norm(v), v)
  }

  /** A position further than 2 from the anchor is pulled in to distance 0.5
      along the normalised direction; every other position is kept. */
  function SanitizePosition(p: Vec3, norm: Vec3 -> Vec3): Vec3 {
    if SqMag(p) > MaxOffsetSquared then Scaled(norm(p), PulledBackDistance) else p
  }

  /** A kept position is the item's own; a pulled-back one lies at distance
      0.5 in the item's direction; either way it is within distance 2. */
  lemma PositionSanitised(p: Vec3, norm: Vec3 -> Vec3)
    ensures SqMag(p) <= MaxOffsetSquared ==> SanitizePosition(p, norm) == p
    ensures SqMag(p) > MaxOffsetSquared && IsNormalizer(norm) ==>
      var r := SanitizePosition(p, norm);
      SqMag(r) == PulledBackDistance * PulledBackDistance && SameDirection(r, p)
    ensures IsNormalizer(norm) ==> SqMag(SanitizePosition(p, norm)) <= MaxOffsetSquared
  {
    if SqMag(p) > MaxOffsetSquared {
      var n := norm(p);
      var r := Scaled(n, PulledBackDistance);
      assert SqMag(r) == PulledBackDistance * PulledBackDistance * SqMag(n);
      assert Cross(r, p) == Scaled(Cross(n, p), PulledBackDistance);
      assert Dot(r, p) == PulledBackDistance * Dot(n, p);
    }
  }

  // -------------------------------------------------------------- the pass

  /** What awaiting `LoadGlb` gave the pass for one item. */
  datatype LoadOutcome = Loaded(handle: nat) | ReturnedNull | Threw

  /** A spawned object: its handle, name and local transform under the anchor. */
  datatype Placed = Placed(handle: nat, name: string, position: Vec3, rotation: Vec3, scale: Vec3)

  function Place(key: string, it: Item, handle: nat, norm: Vec3 -> Vec3): Placed {
    Placed(handle, "ARItem_" + key, SanitizePosition(ItemPosition(it), norm), ItemRotation(it), SanitizeScale(ItemScale(it)))
  }

  /** The loop reaches the asset lookup for `it`: a non-empty id not yet spawned. */
  predicate Reaches(reg: map<string, Placed>, it: Item) {
    it.asset3DId != "" && it.asset3DId !in reg
  }

  /** The pass hands `it` to the loader: it reaches the lookup, which finds an asset. */
  predicate Wants(reg: map<string, Placed>, it: Item, assets: seq<Option<Asset>>) {
    Reaches(reg, it) && FindAsset(assets, it.asset3DId).Some?
  }

  /** The scan for the next item stops at `it`: it reaches the lookup, which
      either throws (`live` is None: the asset list read at that moment is
      null) or finds an asset. */
  predicate Stops(reg: map<string, Placed>, it: Item, live: Option<seq<Option<Asset>>>) {
    Reaches(reg, it) && (live.None? || FindAsset(live.value, it.asset3DId).Some?)
  }

  /** One iteration of the loop; `out` is None for an item never handed to the loader. */
  function StepItem(reg: map<string, Placed>, it: Item, assets: seq<Option<Asset>>, out: Option<LoadOutcome>, norm: Vec3 -> Vec3): map<string, Placed> {
    if Wants(reg, it, assets) && out.Some? && out.value.Loaded? then
      reg[it.asset3DId := Place(it.asset3DId, it, out.value.handle, norm)]
    else reg
  }

  /** The registry after visiting `order`, starting empty; `loads[i]` is what the
      loader returned for `order[i]`. */
  function SpawnAll(order: seq<Item>, assets: seq<Option<Asset>>, loads: seq<Option<LoadOutcome>>, norm: Vec3 -> Vec3): map<string, Placed>
    requires |loads| == |order|
    decreases |order|
  {
    if order == [] then map[]
    else
      var n := |order| - 1;
      StepItem(SpawnAll(order[..n], assets, loads[..n], norm), order[n], assets, loads[n], norm)
  }

  /** `loads` has an outcome exactly for the items the pass handed to the loader. */
  ghost predicate LoadsMatchRequests(order: seq<Item>, assets: seq<Option<Asset>>, loads: seq<Option<LoadOutcome>>, norm: Vec3 -> Vec3)
    requires |loads| == |order|
    decreases |order|
  {
    order == [] ||
    var n := |order| - 1;
    && LoadsMatchRequests(order[..n], assets, loads[..n], norm)
    && (loads[n].Some? <==> Wants(SpawnAll(order[..n], assets, loads[..n], norm), order[n], assets))
  }

  /** Item `it` gets key `k` spawned when it is reached: it has that id, an asset, and loads. */
  predicate Succeeds(it: Item, assets: seq<Option<Asset>>, out: Option<LoadOutcome>, k: string) {
    it.asset3DId == k && k != "" && FindAsset(assets, k).Some? && out.Some? && out.value.Loaded?
  }

  /** The registry holds exactly the ids of items with an asset that loaded. */
  lemma {:induction false} SpawnedKeys(order: seq<Item>, assets: seq<Option<Asset>>, loads: seq<Option<LoadOutcome>>, norm: Vec3 -> Vec3, k: string)
    requires |loads| == |order|
    ensures k in SpawnAll(order, assets, loads, norm) <==>
      exists i :: 0 <= i < |order| && Succeeds(order[i], assets, loads[i], k)
    decreases |order|
  {
    if order != [] {
      var n := |order| - 1;
      var prev := SpawnAll(order[..n], assets, loads[..n], norm);
      SpawnedKeys(order[..n], assets, loads[..n], norm, k);
      assert forall i :: 0 <= i < n ==> order[..n][i] == order[i] && loads[..n][i] == loads[i];
      if k in SpawnAll(order, assets, loads, norm) && k !in prev {
        assert Succeeds(order[n], assets, loads[n], k);
      }
    }
  }

  /** A spawned id holds the object of the FIRST item that loaded under it:
      later items with the same id never replace it. */
  lemma {:induction false} SpawnedFromFirstSuccess(order: seq<Item>, assets: seq<Option<Asset>>, loads: seq<Option<LoadOutcome>>, norm: Vec3 -> Vec3, k: string, i: nat)
    requires |loads| == |order| && i < |order|
    requires Succeeds(order[i], assets, loads[i], k)
    requires forall j :: 0 <= j < i ==> !Succeeds(order[j], assets, loads[j], k)
    ensures k in SpawnAll(order, assets, loads, norm)
    ensures SpawnAll(order, assets, loads, norm)[k] == Place(k, order[i], loads[i].value.handle, norm)
    decreases |order|
  {
    var n := |order| - 1;
    var prev := SpawnAll(order[..n], assets, loads[..n], norm);
    assert forall j :: 0 <= j < n ==> order[..n][j] == order[j] && loads[..n][j] == loads[j];
    if i < n {
      SpawnedFromFirstSuccess(order[..n], assets, loads[..n], norm, k, i);
    } else {
      SpawnedKeys(order[..n], assets, loads[..n], norm, k);
      assert k !in prev;
    }
  }

  /** Every spawned object is named after its id, has its scale in [0.05, 1.5]
      and lies within distance 2 of the anchor. */
  ghost predicate WellPlaced(reg: map<string, Placed>) {
    forall k :: k in reg ==>
      reg[k].name == "ARItem_" + k && ScaleInRange(reg[k].scale) && SqMag(reg[k].position) <= MaxOffsetSquared
  }

  /** A placed object is named after its id, has its scale within [0.05, 1.5]
      and lies within distance 2 of the anchor. */
  lemma PlaceWellPlaced(key: string, it: Item, handle: nat, norm: Vec3 -> Vec3)
    requires IsNormalizer(norm)
    ensures var p := Place(key, it, handle, norm);
      p.name == "ARItem_" + key && ScaleInRange(p.scale) && SqMag(p.position) <= MaxOffsetSquared
  {
    PositionSanitised(ItemPosition(it), norm);
  }

  /** Placing one more object keeps every spawned object well placed. */
  lemma PlaceKeepsWellPlaced(reg: map<string, Placed>, key: string, it: Item, handle: nat, norm: Vec3 -> Vec3)
    requires IsNormalizer(norm) && WellPlaced(reg)
    ensures WellPlaced(reg[key := Place(key, it, handle, norm)])
  {
    PlaceWellPlaced(key, it, handle, norm);
  }

  lemma {:induction false} SpawnAllWellPlaced(order: seq<Item>, assets: seq<Option<Asset>>, loads: seq<Option<LoadOutcome>>, norm: Vec3 -> Vec3)
    requires |loads| == |order| && IsNormalizer(norm)
    ensures WellPlaced(SpawnAll(order, assets, loads, norm))
    decreases |order|
  {
    if order != [] {
      var n := |order| - 1;
      SpawnAllWellPlaced(order[..n], assets, loads[..n], norm);
      var it := order[n];
      if loads[n].Some? && loads[n].value.Loaded? {
        PlaceWellPlaced(it.asset3DId, it, loads[n].value.handle, norm);
      }
    }
  }

  /** Items the loader was never handed leave the registry as it was. */
  lemma {:induction false} SkipUnwanted(order: seq<Item>, assets: seq<Option<Asset>>, loads: seq<Option<LoadOutcome>>, norm: Vec3 -> Vec3, upto: nat)
    requires |loads| <= upto <= |order|
    requires LoadsMatchRequests(order[..|loads|], assets, loads, norm)
    requires forall i :: |loads| <= i < upto ==> !Wants(SpawnAll(order[..|loads|], assets, loads, norm), order[i], assets)
    ensures |loads + Unrequested(upto - |loads|)| == upto
    ensures SpawnAll(order[..upto], assets, loads + Unrequested(upto - |loads|), norm) == SpawnAll(order[..|loads|], assets, loads, norm)
    ensures LoadsMatchRequests(order[..upto], assets, loads + Unrequested(upto - |loads|), norm)
    decreases upto
  {
    if upto > |loads| {
      var m := upto - 1;
      SkipUnwanted(order, assets, loads, norm, m);
      var ext := loads + Unrequested(upto - |loads|);
      assert ext[..m] == loads + Unrequested(m - |loads|);
      assert order[..upto][..m] == order[..m];
      assert ext[m] == None;
      assert order[..upto][m] == order[m];
    } else {
      assert loads + Unrequested(0) == loads;
    }
  }

  function Unrequested(n: nat): (r: seq<Option<LoadOutcome>>)
    ensures |r| == n && forall i :: 0 <= i < n ==> r[i] == None
  {
    seq(n, _ => None)
  }

  /** Where the loop's scan from `from` stops: at the first item whose lookup
      throws or finds an asset, or at the end of the order. */
  function NextStop(order: seq<Item>, live: Option<seq<Option<Asset>>>, reg: map<string, Placed>, from: nat): (c: nat)
    requires from <= |order|
    ensures from <= c <= |order|
    decreases |order| - from
  {
    if from == |order| || Stops(reg, order[from], live) then from else NextStop(order, live, reg, from + 1)
  }

  /** The scan stops at the first item at or after `from` that it stops at,
      and passes over every item before it. */
  lemma {:induction false} NextStopIsFirstStop(order: seq<Item>, live: Option<seq<Option<Asset>>>,
                                               reg: map<string, Placed>, from: nat)
    requires from <= |order|
    ensures forall i :: from <= i < NextStop(order, live, reg, from) ==> !Stops(reg, order[i], live)
    ensures NextStop(order, live, reg, from) < |order| ==> Stops(reg, order[NextStop(order, live, reg, from)], live)
    decreases |order| - from
  {
    if from < |order| && !Stops(reg, order[from], live) {
      NextStopIsFirstStop(order, live, reg, from + 1);
    }
  }

  /** The scan of the loop, from `from`, for the next item to hand to the
      loader or the lookup that throws; `live` is the asset list as it then is. */
  method NextWanted(order: seq<Item>, live: Option<seq<Option<Asset>>>, reg: map<string, Placed>, from: nat) returns (c: nat)
    requires from <= |order|
    ensures c == NextStop(order, live, reg, from)
  {
    c := from;
    while c < |order|
      invariant from <= c <= |order|
      invariant NextStop(order, live, reg, c) == NextStop(order, live, reg, from)
    {
      var it := order[c];
      var key := it.asset3DId;
      if key != "" && key !in reg {
        if live.None? {
          return;
        }
        var asset := FindAsset(live.value, key);
        if asset.Some? {
          return;
        }
      }
      c := c + 1;
    }
  }

  /** What `EnsureSpawned` decides before its loop. */
  datatype PassPlan = EarlyReturn | Visit(order: seq<Item>, assets: seq<Option<Asset>>)

  /** Missing or empty items or assets end the pass at once; otherwise the
      ordered items are visited against the asset list. */
  function Plan(scene: Scene): (p: PassPlan)
    ensures p.EarlyReturn? <==> (scene.items.None? || |scene.items.value| == 0 || scene.assets.None? || |scene.assets.value| == 0)
    ensures p.Visit? ==> p.order == OrderItems(scene.items.value) && p.assets == scene.assets.value
  {
    if scene.items.None? || |scene.items.value| == 0 then EarlyReturn
    else if scene.assets.None? || |scene.assets.value| == 0 then EarlyReturn
    else Visit(OrderItems(scene.items.value), scene.assets.value)
  }

  /** An item that only names its asset is spawned at its authored transform:
      scale (1, 1, 1), at the anchor, unrotated. */
  lemma DefaultItemPlacedAsAuthored(key: string, handle: nat, norm: Vec3 -> Vec3)
    ensures Place(key, DefaultItem(key), handle, norm) ==
      Placed(handle, "ARItem_" + key, Vec3(0.0, 0.0, 0.0), Vec3(0.0, 0.0, 0.0), Vec3(1.0, 1.0, 1.0))
  {
  }

  /** An asset that gives only its id and URL, listed after assets with other
      ids, is what the lookup finds; so the pass hands a not yet spawned item
      that names it to the loader. */
  lemma DefaultAssetIsWanted(key: string, url: string, reg: map<string, Placed>, assets: seq<Option<Asset>>)
    requires key != "" && key !in reg
    requires forall i :: 0 <= i < |assets| ==> !HasId(assets[i], key)
    ensures FindAsset(assets + [Some(DefaultAsset(key, url))], key) == Some(DefaultAsset(key, url))
    ensures Wants(reg, DefaultItem(key), assets + [Some(DefaultAsset(key, url))])
  {
    var all := assets + [Some(DefaultAsset(key, url))];
    FindAssetFindsFirst(all, key);
    assert all[|assets|] == Some(DefaultAsset(key, url));
    assert forall i :: 0 <= i < |assets| ==> all[i] == assets[i];
  }
}
