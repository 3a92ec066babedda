/**
 * The scene description the backend returns for one marker: a scene, its
 * marker, the placements (items) and the 3D assets they refer to.
 * C# `float` fields are modelled as `real`, `int`/`long` as `int`.
 */
module SceneModels {
  import opened Results

  datatype Vec3 = Vec3(x: real, y: real, z: real)

  /** `MarkerDTO`: the one reference image this scene is bound to. */
  datatype Marker = Marker(
    markerId: string,
    markerCode: string,
    imageUrl: string,
    physicalWidthM: real,
    markerType: string)

  /** `ARItemDTO`: one placement of one asset, relative to the marker anchor.
      Items refer to assets by `asset3DId`. */
  datatype Item = Item(
    asset3DId: string,
    orderIndex: int,
    posX: real, posY: real, posZ: real,
    rotX: real, rotY: real, rotZ: real,
    scaleX: real, scaleY: real, scaleZ: real)

  /** `Asset3DDTO`: a 3D content descriptor; `assetUrl` is http(s) or `gs://`. */
  datatype Asset = Asset(
    asset3DId: string,
    assetUrl: string,
    fileName: string,
    format: string,
    polycount: int,
    scale: real,
    fileSize: int)

  /** `ARSceneWithItemsResponse`. Every reference the scripts test for null is
      an `Option`, and so are the entries of both lists: the decoder is a
      parameter of the model, and nothing in the scripts rules out a null entry. */
  datatype Scene = Scene(
    sceneId: string,
    marker: Option<Marker>,
    items: Option<seq<Option<Item>>>,
    assets: Option<seq<Option<Asset>>>)

  /** An item as the JSON decoder yields it when the body names only its asset:
      the field initialisers give scale (1, 1, 1) and every other number 0. */
  function DefaultItem(asset3DId: string): Item {
    Item(asset3DId, 0, 0.0, 0.0, 0.0, 0.0, 0.0, 0.0, 1.0, 1.0, 1.0)
  }

  /** An asset with only its id and URL supplied; `scale` is initialised to 1. */
  function DefaultAsset(asset3DId: string, assetUrl: string): Asset {
    Asset(asset3DId, assetUrl, "", "", 0, 1.0, 0)
  }

  function ItemPosition(it: Item): Vec3 { Vec3(it.posX, it.posY, it.posZ) }
  function ItemRotation(it: Item): Vec3 { Vec3(it.rotX, it.rotY, it.rotZ) }
  function ItemScale(it: Item): Vec3 { Vec3(it.scaleX, it.scaleY, it.scaleZ) }
}
