/** `TiledMapRenderer`: its configuration, construction, layer-selection
    setters, world-position queries and the choice of what `Render` submits.
    Collider synthesis and the collider lifecycle live in their own modules. */
module MapRenderer {
  import opened Wrappers
  import opened Geometry
  import opened Tiled

  /** The renderer's fields. `collisionLayer` is `CollisionLayer` (a tile
      layer of `map`, or null); `localOffset` is the component's local offset. */
  datatype Config = Config(
    tiledMap: Map,
    physicsLayer: int,
    layerIndicesToRender: Option<seq<int>>,
    layerIndicesToCollide: Option<seq<int>>,
    autoUpdateTilesets: bool,
    collisionLayer: Option<Layer>,
    shouldCreateColliders: bool,
    shouldAddTileSetCollisions: bool,
    localOffset: Vec2)

  /** The error raised when a collision layer name resolves to no tile layer. */
  datatype LayerError = LayerNotFound(name: string)

  /** The constructor: a named collision layer must be a tile layer of the
      map; every other field takes its declared default. */
  function NewRenderer(
    m: Map,
    collisionLayerName: Option<string>,
    shouldCreateColliders: bool,
    shouldAddTileSetCollisions: bool): (r: Result<Config, LayerError>)
    ensures collisionLayerName.None? ==> r.Success? && r.value.collisionLayer.None?
    ensures collisionLayerName.Some? ==>
      (r.Success? <==>
        exists i :: 0 <= i < |m.layers| && IsTileLayer(m.layers[i]) && m.layers[i].name == collisionLayerName.value)
    ensures r.Failure? ==> r.error == LayerNotFound(collisionLayerName.value)
    ensures r.Success? && collisionLayerName.Some? ==>
      r.value.collisionLayer.Some? && r.value.collisionLayer.value in m.layers
      && IsTileLayer(r.value.collisionLayer.value)
      && r.value.collisionLayer.value.name == collisionLayerName.value
    ensures r.Success? && collisionLayerName.Some? ==>
      exists i :: IsFirstTileLayerNamed(m.layers, collisionLayerName.value, i)
                  && r.value.collisionLayer.value == m.layers[i]
    ensures r.Success? ==>
      && r.value.tiledMap == m
      && r.value.physicsLayer == 1
      && r.value.layerIndicesToRender.None?
      && r.value.layerIndicesToCollide.None?
      && r.value.autoUpdateTilesets
      && r.value.shouldCreateColliders == shouldCreateColliders
      && r.value.shouldAddTileSetCollisions == shouldAddTileSetCollisions
      && r.value.localOffset == Origin
  {
    var base := Config(m, 1, None, None, true, None, shouldCreateColliders, shouldAddTileSetCollisions, Origin);
    match collisionLayerName
    case None => Success(base)
    case Some(name) =>
      match FindTileLayer(m, name)
      case None => Failure(LayerNotFound(name))
      case Some(l) => Success(base.(collisionLayer := Some(l)))
  }

  /** The map index of every name, -1 for a name no layer carries. */
  function LayerIndices(layers: seq<Layer>, names: seq<string>): (r: seq<int>)
    ensures |r| == |names|
    ensures forall k :: 0 <= k < |names| ==> -1 <= r[k] < |layers|
    ensures forall k :: 0 <= k < |names| && r[k] >= 0 ==> layers[r[k]].name == names[k]
    ensures forall k :: 0 <= k < |names| ==>
      (r[k] == -1 <==> forall j :: 0 <= j < |layers| ==> layers[j].name != names[k])
    ensures forall k :: 0 <= k < |names| && r[k] >= 0 ==>
      forall j :: 0 <= j < r[k] ==> layers[j].name != names[k]
  {
    seq(|names|, k requires 0 <= k < |names| => IndexOfLayerNamed(layers, names[k]))
  }

  /** `SetLayersToRender`: replaces the render subset by the layers' indices. */
  function SetLayersToRender(c: Config, names: seq<string>): (r: Config)
    ensures r.layerIndicesToRender.Some?
    ensures r.layerIndicesToRender.value == LayerIndices(c.tiledMap.layers, names)
    ensures r.(layerIndicesToRender := c.layerIndicesToRender) == c
  {
    c.(layerIndicesToRender := Some(LayerIndices(c.tiledMap.layers, names)))
  }

  /** `SetLayerToRender`: a render subset of one layer. */
  function SetLayerToRender(c: Config, name: string): (r: Config)
    ensures r == SetLayersToRender(c, [name])
  {
    var r := c.(layerIndicesToRender := Some([IndexOfLayerNamed(c.tiledMap.layers, name)]));
    assert LayerIndices(c.tiledMap.layers, [name]) == [IndexOfLayerNamed(c.tiledMap.layers, name)];
    r
  }

  /** `SetLayersToCollide`: stores indices into ALL layers of the map,
      although `AddColliders` later reads them as indices into the tile
      layers only. */
  function SetLayersToCollide(c: Config, names: seq<string>): (r: Config)
    ensures r.layerIndicesToCollide.Some?
    ensures r.layerIndicesToCollide.value == LayerIndices(c.tiledMap.layers, names)
    ensures r.(layerIndicesToCollide := c.layerIndicesToCollide) == c
  {
    c.(layerIndicesToCollide := Some(LayerIndices(c.tiledMap.layers, names)))
  }

  // ---------------------------------------------------------------------
  // World-position queries. The map's own conversions and the collision
  // layer's tile lookups are parameters.

  /** The map-local point of world point `p`: the one that entity position
      plus local offset carry back onto `p`. */
  function LocalPoint(c: Config, entityPosition: Vec2, p: Vec2): (l: Vec2)
    ensures l.Plus(entityPosition.Plus(c.localOffset)) == p
  {
    p.Minus(entityPosition.Plus(c.localOffset))
  }

  /** `GetRowAtWorldPosition`: the map row of a world y coordinate. */
  function GetRowAtWorldPosition(c: Config, entityPosition: Vec2, yPos: real, worldToTileY: real -> int): (row: int)
    ensures row == worldToTileY(LocalPoint(c, entityPosition, Vec2(0.0, yPos)).y)
  {
    worldToTileY(yPos - (entityPosition.y + c.localOffset.y))
  }

  /** `GetColumnAtWorldPosition`: the map column of a world x coordinate. */
  function GetColumnAtWorldPosition(c: Config, entityPosition: Vec2, xPos: real, worldToTileX: real -> int): (column: int)
    ensures column == worldToTileX(LocalPoint(c, entityPosition, Vec2(xPos, 0.0)).x)
  {
    worldToTileX(xPos - (entityPosition.x + c.localOffset.x))
  }

  /** `GetTileAtWorldPosition`: only meaningful with a collision layer. */
  function GetTileAtWorldPosition<T>(
    c: Config, entityPosition: Vec2, worldPos: Vec2, tileAt: (Layer, Vec2) -> T): (r: T)
    requires c.collisionLayer.Some?
    ensures r == tileAt(c.collisionLayer.value, LocalPoint(c, entityPosition, worldPos))
  {
    tileAt(c.collisionLayer.value, worldPos.Minus(entityPosition.Plus(c.localOffset)))
  }

  /** `GetTilesIntersectingBounds`: the integer bounds are moved back by the
      entity position plus local offset, each coordinate truncated toward
      zero; their size is kept. */
  function GetTilesIntersectingBounds<T>(
    c: Config, entityPosition: Vec2, bounds: Rect, tilesIn: (Layer, Rect) -> T): (r: T)
    requires c.collisionLayer.Some?
    ensures exists local: Rect :: BoundsShiftedBack(c, entityPosition, bounds, local)
                                   && r == tilesIn(c.collisionLayer.value, local)
  {
    var shift := ToPoint(entityPosition.Plus(c.localOffset));
    var local := Rect(bounds.x - shift.0, bounds.y - shift.1, bounds.width, bounds.height);
    assert BoundsShiftedBack(c, entityPosition, bounds, local);
    tilesIn(c.collisionLayer.value, local)
  }

  /** `local` is `bounds` moved back by entity position plus local offset
      truncated toward zero, with the same size. */
  predicate BoundsShiftedBack(c: Config, entityPosition: Vec2, bounds: Rect, local: Rect)
  {
    && TruncatesTo(entityPosition.x + c.localOffset.x, bounds.x - local.x)
    && TruncatesTo(entityPosition.y + c.localOffset.y, bounds.y - local.y)
    && local.width == bounds.width
    && local.height == bounds.height
  }

  /** A world coordinate written as map-local coordinate plus entity position
      plus local offset is converted as the map-local coordinate itself. */
  lemma RowAndColumnQueriesUndoPlacement(
    c: Config, entityPosition: Vec2, local: Vec2, worldToTileX: real -> int, worldToTileY: real -> int)
    ensures GetRowAtWorldPosition(c, entityPosition, local.y + entityPosition.y + c.localOffset.y, worldToTileY)
            == worldToTileY(local.y)
    ensures GetColumnAtWorldPosition(c, entityPosition, local.x + entityPosition.x + c.localOffset.x, worldToTileX)
            == worldToTileX(local.x)
  {
  }

  /** Moving the entity and the queried point by the same amount does not
      change which row or column is reported. */
  lemma RowAndColumnQueriesFollowEntity(
    c: Config, entityPosition: Vec2, delta: Vec2, pos: Vec2, worldToTileX: real -> int, worldToTileY: real -> int)
    ensures GetRowAtWorldPosition(c, entityPosition.Plus(delta), pos.y + delta.y, worldToTileY)
            == GetRowAtWorldPosition(c, entityPosition, pos.y, worldToTileY)
    ensures GetColumnAtWorldPosition(c, entityPosition.Plus(delta), pos.x + delta.x, worldToTileX)
            == GetColumnAtWorldPosition(c, entityPosition, pos.x, worldToTileX)
  {
  }

  /** The tile query asks the collision layer about the map-local point. */
  lemma TileQueryUndoesPlacement<T>(c: Config, entityPosition: Vec2, local: Vec2, tileAt: (Layer, Vec2) -> T)
    requires c.collisionLayer.Some?
    ensures GetTileAtWorldPosition(c, entityPosition, local.Plus(entityPosition.Plus(c.localOffset)), tileAt)
            == tileAt(c.collisionLayer.value, local)
  {
    var w := local.Plus(entityPosition.Plus(c.localOffset));
    assert w.Minus(entityPosition.Plus(c.localOffset)) == local;
  }

  /** The bounds query keeps the size of the bounds and, when entity position
      plus local offset lies on whole pixels, asks the collision layer about
      exactly the map-local bounds. */
  lemma BoundsQueryUndoesPlacement<T>(
    c: Config, entityPosition: Vec2, local: Rect, tx: int, ty: int, tilesIn: (Layer, Rect) -> T)
    requires c.collisionLayer.Some?
    requires entityPosition.x + c.localOffset.x == tx as real
    requires entityPosition.y + c.localOffset.y == ty as real
    ensures GetTilesIntersectingBounds(c, entityPosition, Rect(local.x + tx, local.y + ty, local.width, local.height), tilesIn)
            == tilesIn(c.collisionLayer.value, local)
  {
    assert Truncate(tx as real) == tx;
    assert Truncate(ty as real) == ty;
  }

  /** At every entity position, whole or fractional, the bounds query asks
      the collision layer about the bounds moved back by entity position plus
      local offset, each coordinate truncated toward zero. */
  lemma BoundsQueryAtAnyPosition<T>(
    c: Config, entityPosition: Vec2, bounds: Rect, tx: int, ty: int, tilesIn: (Layer, Rect) -> T)
    requires c.collisionLayer.Some?
    requires TruncatesTo(entityPosition.x + c.localOffset.x, tx)
    requires TruncatesTo(entityPosition.y + c.localOffset.y, ty)
    ensures GetTilesIntersectingBounds(c, entityPosition, bounds, tilesIn)
            == tilesIn(c.collisionLayer.value, Rect(bounds.x - tx, bounds.y - ty, bounds.width, bounds.height))
  {
    var shift := ToPoint(entityPosition.Plus(c.localOffset));
    TruncationIsUnique(entityPosition.x + c.localOffset.x, shift.0, tx);
    TruncationIsUnique(entityPosition.y + c.localOffset.y, shift.1, ty);
  }

  /** Truncation toward zero, not flooring: an entity half a pixel up and
      left of the origin moves the bounds by nothing at all. */
  lemma BoundsQueryTruncatesTowardZero<T>(c: Config, entityPosition: Vec2, bounds: Rect, tilesIn: (Layer, Rect) -> T)
    requires c.collisionLayer.Some?
    requires entityPosition.Plus(c.localOffset) == Vec2(-0.5, -0.5)
    ensures GetTilesIntersectingBounds(c, entityPosition, bounds, tilesIn) == tilesIn(c.collisionLayer.value, bounds)
  {
    assert Truncate(-0.5) == 0;
  }

  // ---------------------------------------------------------------------
  // Render layer selection.

  /** One draw submission of `Render`: the whole map, or one layer by index;
      both at the entity position plus local offset, with the component's
      scale, layer depth and the camera's bounds as culling rectangle. */
  datatype Submission =
    | WholeMap(origin: Vec2, scale: Vec2, depth: real, cull: RectF)
    | SingleLayer(index: int, origin: Vec2, scale: Vec2, depth: real, cull: RectF)

  /** The indices `i >= from` of visible layers that the subset contains, in
      map order. */
  function SelectLayers(layers: seq<Layer>, subset: seq<int>, from: nat): (r: seq<int>)
    requires from <= |layers|
    ensures forall k :: 0 <= k < |r| ==> from <= r[k] < |layers| && layers[r[k]].visible && r[k] in subset
    ensures forall k, l :: 0 <= k < l < |r| ==> r[k] < r[l]
    ensures forall i :: from <= i < |layers| && layers[i].visible && i in subset ==> i in r
    decreases |layers| - from
  {
    if from == |layers| then []
    else if layers[from].visible && from in subset then [from] + SelectLayers(layers, subset, from + 1)
    else SelectLayers(layers, subset, from + 1)
  }

  /** What `Render` submits for an entity at `entityPosition`. */
  function Render(c: Config, entityPosition: Vec2, scale: Vec2, layerDepth: real, cameraBounds: RectF): (r: seq<Submission>)
    ensures c.layerIndicesToRender.None? ==>
      r == [WholeMap(entityPosition.Plus(c.localOffset), scale, layerDepth, cameraBounds)]
    ensures c.layerIndicesToRender.Some? ==>
      forall k :: 0 <= k < |r| ==>
        && r[k].SingleLayer?
        && 0 <= r[k].index < |c.tiledMap.layers|
        && c.tiledMap.layers[r[k].index].visible
        && r[k].index in c.layerIndicesToRender.value
        && r[k] == SingleLayer(r[k].index, entityPosition.Plus(c.localOffset), scale, layerDepth, cameraBounds)
    ensures c.layerIndicesToRender.Some? ==>
      forall k, l :: 0 <= k < l < |r| ==> r[k].index < r[l].index
    ensures c.layerIndicesToRender.Some? ==>
      forall i :: 0 <= i < |c.tiledMap.layers| && c.tiledMap.layers[i].visible && i in c.layerIndicesToRender.value ==>
        exists k :: 0 <= k < |r| && r[k].index == i
  {
    var origin := entityPosition.Plus(c.localOffset);
    match c.layerIndicesToRender
    case None => [WholeMap(origin, scale, layerDepth, cameraBounds)]
    case Some(subset) =>
      var picked := SelectLayers(c.tiledMap.layers, subset, 0);
      var r := seq(|picked|, k requires 0 <= k < |picked| => SingleLayer(picked[k], origin, scale, layerDepth, cameraBounds));
      assert forall k :: 0 <= k < |picked| ==> r[k].index == picked[k];
      r
  }

  /** The render subset acts as a set: its order and any repeated index do
      not change what is submitted, and each layer is submitted at most once. */
  lemma {:induction false} SelectLayersIgnoresSubsetOrder(layers: seq<Layer>, a: seq<int>, b: seq<int>, from: nat)
    requires from <= |layers|
    requires forall i :: i in a <==> i in b
    ensures SelectLayers(layers, a, from) == SelectLayers(layers, b, from)
    decreases |layers| - from
  {
    if from < |layers| {
      SelectLayersIgnoresSubsetOrder(layers, a, b, from + 1);
    }
  }

  /** No two layer names of the map are equal. */
  predicate UniqueLayerNames(layers: seq<Layer>)
  {
    forall i, j :: 0 <= i < j < |layers| ==> layers[i].name != layers[j].name
  }

  /** No layer before `i` carries the name of layer `i`. */
  predicate FirstWithItsName(layers: seq<Layer>, i: int)
    requires 0 <= i < |layers|
  {
    forall j :: 0 <= j < i ==> layers[j].name != layers[i].name
  }

  /** After `SetLayersToRender(names)`, whatever the layer names, `Render`
      submits a layer exactly when it is visible, named in `names`, and the
      first layer with its name: of several layers sharing a name only the
      first is ever rendered. */
  lemma RenderAfterSetLayersToRenderPicksFirstOfEachName(
    c: Config, names: seq<string>, entityPosition: Vec2, scale: Vec2, layerDepth: real, cameraBounds: RectF)
    ensures var r := Render(SetLayersToRender(c, names), entityPosition, scale, layerDepth, cameraBounds);
      forall i :: 0 <= i < |c.tiledMap.layers| ==>
        ((exists k :: 0 <= k < |r| && r[k].index == i) <==>
         c.tiledMap.layers[i].visible && c.tiledMap.layers[i].name in names && FirstWithItsName(c.tiledMap.layers, i))
  {
    var layers := c.tiledMap.layers;
    var c' := SetLayersToRender(c, names);
    var indices := c'.layerIndicesToRender.value;
    var r := Render(c', entityPosition, scale, layerDepth, cameraBounds);
    forall i | 0 <= i < |layers|
      ensures (exists k :: 0 <= k < |r| && r[k].index == i) <==>
              layers[i].visible && layers[i].name in names && FirstWithItsName(layers, i)
    {
      if layers[i].visible && layers[i].name in names && FirstWithItsName(layers, i) {
        var k :| 0 <= k < |names| && names[k] == layers[i].name;
        assert indices[k] == i by {
          assert IndexOfLayerNamed(layers, names[k]) == i;
        }
      }
      if exists k :: 0 <= k < |r| && r[k].index == i {
        assert i in indices;
        var k :| 0 <= k < |indices| && indices[k] == i;
        assert layers[i].name == names[k];
      }
    }
  }

  /** After `SetLayersToRender(names)` on a map whose layer names are unique,
      `Render` submits a layer exactly when it is visible and named in
      `names`. */
  lemma RenderAfterSetLayersToRender(
    c: Config, names: seq<string>, entityPosition: Vec2, scale: Vec2, layerDepth: real, cameraBounds: RectF)
    requires UniqueLayerNames(c.tiledMap.layers)
    ensures var r := Render(SetLayersToRender(c, names), entityPosition, scale, layerDepth, cameraBounds);
      forall i :: 0 <= i < |c.tiledMap.layers| ==>
        ((exists k :: 0 <= k < |r| && r[k].index == i) <==>
         c.tiledMap.layers[i].visible && c.tiledMap.layers[i].name in names)
  {
    var layers := c.tiledMap.layers;
    var c' := SetLayersToRender(c, names);
    var indices := c'.layerIndicesToRender.value;
    var r := Render(c', entityPosition, scale, layerDepth, cameraBounds);
    forall i | 0 <= i < |layers|
      ensures (exists k :: 0 <= k < |r| && r[k].index == i) <==> layers[i].visible && layers[i].name in names
    {
      if layers[i].visible && layers[i].name in names {
        var k :| 0 <= k < |names| && names[k] == layers[i].name;
        assert indices[k] == i;
      }
      if exists k :: 0 <= k < |r| && r[k].index == i {
        assert i in indices;
        var k :| 0 <= k < |indices| && indices[k] == i;
        assert layers[i].name == names[k];
      }
    }
  }
}
