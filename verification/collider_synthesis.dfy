/** What `AddColliders` builds before registering anything: one box per
    collision rectangle of the collision layer, then, with tileset collisions
    enabled, one circle or polygon per ellipse or polygon authored on the
    tileset tiles of the selected layers. A pure function of the renderer's
    configuration and its entity. */
module ColliderSynthesis {
  import opened Wrappers
  import opened Geometry
  import opened Seqs
  import opened Tiled
  import opened MapRenderer

  /** Identity of the entity a collider is attached to. */
  type EntityId = nat

  /** The colliders the renderer creates. A box is given by the arguments of
      its constructor; circles and polygons by the local offset added to
      them. */
  datatype Collider =
    | BoxCollider(x: real, y: real, width: real, height: real, physicsLayer: int, entity: EntityId)
    | CircleCollider(radius: real, localOffset: Vec2, physicsLayer: int, entity: EntityId)
    | PolygonCollider(points: seq<Vec2>, localOffset: Vec2, physicsLayer: int, entity: EntityId)

  /** The collider carries the renderer's physics layer and entity. */
  predicate Tagged(col: Collider, c: Config, owner: EntityId)
  {
    col.physicsLayer == c.physicsLayer && col.entity == owner
  }

  // ---------------------------------------------------------------------
  // Collision rectangles.

  /** One box per rectangle, in rectangle order, moved by `offset`. */
  function RectColliders(rects: seq<Rect>, offset: Vec2, physicsLayer: int, owner: EntityId): (r: seq<Collider>)
    ensures |r| == |rects|
    ensures forall i :: 0 <= i < |rects| ==>
      r[i] == BoxCollider(rects[i].x as real + offset.x, rects[i].y as real + offset.y,
                          rects[i].width as real, rects[i].height as real, physicsLayer, owner)
  {
    if rects == [] then []
    else
      var rect := rects[0];
      [BoxCollider(rect.x as real + offset.x, rect.y as real + offset.y, rect.width as real, rect.height as real,
                   physicsLayer, owner)]
      + RectColliders(rects[1..], offset, physicsLayer, owner)
  }

  /** The rectangles of the collision layer; none without a collision layer. */
  function BoxRects(c: Config): (rects: seq<Rect>)
    ensures c.collisionLayer.None? ==> rects == []
    ensures c.collisionLayer.Some? ==> rects == CollisionRects(c.collisionLayer.value)
    ensures c.collisionLayer.Some? && !c.collisionLayer.value.kind.TileGrid? ==> rects == []
  {
    if c.collisionLayer.Some? then CollisionRects(c.collisionLayer.value) else []
  }

  // ---------------------------------------------------------------------
  // Shapes authored on tileset tiles.

  /** Only ellipses and polygons become colliders. */
  predicate IsColliderShape(o: TmxObject)
  {
    o.kind == Ellipse || o.kind == Polygon
  }

  /** The number of objects that become colliders. */
  function ShapeCount(objs: seq<TmxObject>): (n: nat)
  {
    if objs == [] then 0 else (if IsColliderShape(objs[0]) then 1 else 0) + ShapeCount(objs[1..])
  }

  /** The collider derived from object `o` on tile `t`: a circle of radius a
      quarter of the tile width for an ellipse, a polygon with the authored
      points for a polygon, nothing otherwise; placed at the tile's grid
      origin plus the renderer's local offset plus the object's offset. */
  function DeriveCollider(c: Config, owner: EntityId, t: Tile, o: TmxObject): (r: Option<Collider>)
    ensures r.Some? <==> IsColliderShape(o)
    ensures r.Some? ==> !r.value.BoxCollider? && Tagged(r.value, c, owner)
    ensures r.Some? ==>
      r.value.localOffset == Vec2((t.x * c.tiledMap.tileWidth) as real + c.localOffset.x + o.x,
                                  (t.y * c.tiledMap.tileHeight) as real + c.localOffset.y + o.y)
    ensures o.kind == Ellipse ==> r.Some? && r.value.CircleCollider? && r.value.radius == c.tiledMap.tileWidth as real / 4.0
    ensures o.kind == Polygon ==> r.Some? && r.value.PolygonCollider? && r.value.points == o.points
  {
    var tileOrigin := Vec2((t.x * c.tiledMap.tileWidth) as real, (t.y * c.tiledMap.tileHeight) as real);
    var offset := tileOrigin.Plus(c.localOffset).Plus(Vec2(o.x, o.y));
    match o.kind
    case Ellipse => Some(CircleCollider(c.tiledMap.tileWidth as real / 4.0, offset, c.physicsLayer, owner))
    case Polygon => Some(PolygonCollider(o.points, offset, c.physicsLayer, owner))
    case _ => None
  }

  /** The colliders of the objects of one tile, in object order. */
  function ObjectColliders(c: Config, owner: EntityId, t: Tile, objs: seq<TmxObject>): (r: seq<Collider>)
    ensures |r| == ShapeCount(objs)
    ensures forall k :: 0 <= k < |r| ==> !r[k].BoxCollider? && Tagged(r[k], c, owner)
  {
    if objs == [] then []
    else
      var d := DeriveCollider(c, owner, t, objs[0]);
      var head := if d.Some? then [d.value] else [];
      var tail := ObjectColliders(c, owner, t, objs[1..]);
      var r := head + tail;
      assert forall k :: |head| <= k < |r| ==> r[k] == tail[k - |head|];
      r
  }

  /** A collider comes from a tile's objects exactly when it is derived from
      one of them: nothing is invented and no shape object is dropped. */
  lemma {:induction false} ObjectCollidersFromObjects(c: Config, owner: EntityId, t: Tile, objs: seq<TmxObject>, col: Collider)
    ensures col in ObjectColliders(c, owner, t, objs) <==>
      exists i :: 0 <= i < |objs| && DeriveCollider(c, owner, t, objs[i]) == Some(col)
  {
    if objs != [] {
      ObjectCollidersFromObjects(c, owner, t, objs[1..], col);
      if exists i :: 0 <= i < |objs| && DeriveCollider(c, owner, t, objs[i]) == Some(col) {
        var i :| 0 <= i < |objs| && DeriveCollider(c, owner, t, objs[i]) == Some(col);
        if i > 0 {
          assert objs[i] == objs[1..][i - 1];
        }
      }
      if col in ObjectColliders(c, owner, t, objs[1..]) {
        var i :| 0 <= i < |objs[1..]| && DeriveCollider(c, owner, t, objs[1..][i]) == Some(col);
        assert objs[1..][i] == objs[i + 1];
      }
    }
  }

  /** Object colliders of concatenated object lists are concatenated: with
      the one-object case this fixes the order of the result. */
  lemma {:induction false} ObjectCollidersAppend(c: Config, owner: EntityId, t: Tile, a: seq<TmxObject>, b: seq<TmxObject>)
    ensures ObjectColliders(c, owner, t, a + b) == ObjectColliders(c, owner, t, a) + ObjectColliders(c, owner, t, b)
  {
    if a == [] {
      assert a + b == b;
    } else {
      assert (a + b)[1..] == a[1..] + b;
      ObjectCollidersAppend(c, owner, t, a[1..], b);
    }
  }

  /** The objects of the first object group of a tile's tileset tile. A
      tileset tile with no group at all is taken to carry no objects. */
  function FirstGroupObjects(t: Tile): (r: Option<seq<TmxObject>>)
    ensures t.tilesetTile.None? ==> r.None?
    ensures r.Some? <==> t.tilesetTile.Some? && |t.tilesetTile.value.objectGroups| > 0
    ensures r.Some? ==> r.value == t.tilesetTile.value.objectGroups[0].objects
  {
    match t.tilesetTile
    case None => None
    case Some(tt) => if tt.objectGroups == [] then None else Some(tt.objectGroups[0].objects)
  }

  /** The number of colliders one layer cell yields. */
  function TileShapeCount(tile: Option<Tile>): (n: nat)
  {
    match tile
    case None => 0
    case Some(t) =>
      match FirstGroupObjects(t)
      case None => 0
      case Some(objs) => ShapeCount(objs)
  }

  /** The colliders of one layer cell: none for an empty cell or a tile
      without tileset objects. */
  function TileColliders(c: Config, owner: EntityId, tile: Option<Tile>): (r: seq<Collider>)
    ensures tile.None? ==> r == []
    ensures tile.Some? && FirstGroupObjects(tile.value).None? ==> r == []
    ensures |r| == TileShapeCount(tile)
    ensures forall k :: 0 <= k < |r| ==> !r[k].BoxCollider? && Tagged(r[k], c, owner)
  {
    match tile
    case None => []
    case Some(t) =>
      match FirstGroupObjects(t)
      case None => []
      case Some(objs) => ObjectColliders(c, owner, t, objs)
  }

  /** The number of colliders a sequence of cells yields. */
  function TilesShapeCount(tiles: seq<Option<Tile>>): (n: nat)
  {
    if tiles == [] then 0 else TileShapeCount(tiles[0]) + TilesShapeCount(tiles[1..])
  }

  /** `AddCollidersFromLayer` over a sequence of cells, in cell order. */
  function TilesColliders(c: Config, owner: EntityId, tiles: seq<Option<Tile>>): (r: seq<Collider>)
    ensures |r| == TilesShapeCount(tiles)
    ensures forall k :: 0 <= k < |r| ==> !r[k].BoxCollider? && Tagged(r[k], c, owner)
  {
    if tiles == [] then []
    else
      var head := TileColliders(c, owner, tiles[0]);
      var tail := TilesColliders(c, owner, tiles[1..]);
      var r := head + tail;
      assert forall k :: |head| <= k < |r| ==> r[k] == tail[k - |head|];
      r
  }

  /** A collider comes from a layer's cells exactly when it comes from one
      of those cells. */
  lemma {:induction false} TilesCollidersFromCells(c: Config, owner: EntityId, tiles: seq<Option<Tile>>, col: Collider)
    ensures col in TilesColliders(c, owner, tiles) <==>
      exists i :: 0 <= i < |tiles| && col in TileColliders(c, owner, tiles[i])
  {
    if tiles != [] {
      TilesCollidersFromCells(c, owner, tiles[1..], col);
      if exists i :: 0 <= i < |tiles| && col in TileColliders(c, owner, tiles[i]) {
        var i :| 0 <= i < |tiles| && col in TileColliders(c, owner, tiles[i]);
        if i > 0 {
          assert tiles[i] == tiles[1..][i - 1];
        }
      }
      if col in TilesColliders(c, owner, tiles[1..]) {
        var i :| 0 <= i < |tiles[1..]| && col in TileColliders(c, owner, tiles[1..][i]);
        assert tiles[1..][i] == tiles[i + 1];
      }
    }
  }

  /** The cell colliders of concatenated cell sequences are concatenated. */
  lemma {:induction false} TilesCollidersAppend(c: Config, owner: EntityId, a: seq<Option<Tile>>, b: seq<Option<Tile>>)
    ensures TilesColliders(c, owner, a + b) == TilesColliders(c, owner, a) + TilesColliders(c, owner, b)
  {
    if a == [] {
      assert a + b == b;
    } else {
      assert (a + b)[1..] == a[1..] + b;
      TilesCollidersAppend(c, owner, a[1..], b);
    }
  }

  /** The number of colliders the tiles of a sequence of layers yield. */
  function LayersShapeCount(layers: seq<Layer>): (n: nat)
  {
    if layers == [] then 0 else TilesShapeCount(Tiles(layers[0])) + LayersShapeCount(layers[1..])
  }

  /** `AddCollidersFromLayer` applied to each layer in turn. */
  function LayersColliders(c: Config, owner: EntityId, layers: seq<Layer>): (r: seq<Collider>)
    ensures |r| == LayersShapeCount(layers)
    ensures forall k :: 0 <= k < |r| ==> !r[k].BoxCollider? && Tagged(r[k], c, owner)
  {
    if layers == [] then []
    else
      var head := TilesColliders(c, owner, Tiles(layers[0]));
      var tail := LayersColliders(c, owner, layers[1..]);
      var r := head + tail;
      assert forall k :: |head| <= k < |r| ==> r[k] == tail[k - |head|];
      r
  }

  /** A collider comes from a sequence of layers exactly when it comes from
      the cells of one of them. */
  lemma {:induction false} LayersCollidersFromLayers(c: Config, owner: EntityId, layers: seq<Layer>, col: Collider)
    ensures col in LayersColliders(c, owner, layers) <==>
      exists l :: 0 <= l < |layers| && col in TilesColliders(c, owner, Tiles(layers[l]))
  {
    if layers != [] {
      LayersCollidersFromLayers(c, owner, layers[1..], col);
      if exists l :: 0 <= l < |layers| && col in TilesColliders(c, owner, Tiles(layers[l])) {
        var l :| 0 <= l < |layers| && col in TilesColliders(c, owner, Tiles(layers[l]));
        if l > 0 {
          assert layers[l] == layers[1..][l - 1];
        }
      }
      if col in LayersColliders(c, owner, layers[1..]) {
        var l :| 0 <= l < |layers[1..]| && col in TilesColliders(c, owner, Tiles(layers[1..][l]));
        assert layers[1..][l] == layers[l + 1];
      }
    }
  }

  /** Layers are visited in order: concatenated layer sequences give
      concatenated colliders. */
  lemma {:induction false} LayersCollidersAppend(c: Config, owner: EntityId, a: seq<Layer>, b: seq<Layer>)
    ensures LayersColliders(c, owner, a + b) == LayersColliders(c, owner, a) + LayersColliders(c, owner, b)
  {
    if a == [] {
      assert a + b == b;
    } else {
      assert (a + b)[1..] == a[1..] + b;
      LayersCollidersAppend(c, owner, a[1..], b);
    }
  }

  /** A collider comes from a tile exactly when the tile's first object
      group holds an object it is derived from. */
  lemma TileCollidersFromObjects(c: Config, owner: EntityId, t: Tile, col: Collider)
    ensures col in TileColliders(c, owner, Some(t)) <==>
      FirstGroupObjects(t).Some? &&
      exists i :: 0 <= i < |FirstGroupObjects(t).value| &&
        DeriveCollider(c, owner, t, FirstGroupObjects(t).value[i]) == Some(col)
  {
    if FirstGroupObjects(t).Some? {
      ObjectCollidersFromObjects(c, owner, t, FirstGroupObjects(t).value, col);
    }
  }

  // ---------------------------------------------------------------------
  // Which layers feed tileset collisions.

  /** `AddColliders` indexes `TileLayers` with every entry of
      `LayerIndicesToCollide`; an index out of range raises there. */
  predicate CollideIndicesValid(c: Config)
  {
    c.layerIndicesToCollide.Some? ==>
      forall k :: 0 <= k < |c.layerIndicesToCollide.value| ==>
        0 <= c.layerIndicesToCollide.value[k] < |TileLayers(c.tiledMap)|
  }

  /** `AddColliders` reads `LayerIndicesToCollide` only when tileset
      collisions are on, so only then must its indices be in range. */
  predicate CollideIndicesUsable(c: Config)
  {
    c.shouldAddTileSetCollisions ==> CollideIndicesValid(c)
  }

  /** The layers whose tiles are searched for authored shapes: without an
      explicit list, the visible tile layers in map order; with one, the
      tile layers at the listed indices in list order, visible or not. */
  function CollisionSourceLayers(c: Config): (r: seq<Layer>)
    requires CollideIndicesValid(c)
    ensures forall k :: 0 <= k < |r| ==> IsTileLayer(r[k]) && r[k] in c.tiledMap.layers
    ensures c.layerIndicesToCollide.None? ==>
      |r| == |MatchingIndices(IsVisibleTileLayer, c.tiledMap.layers, 0)|
      && forall k :: 0 <= k < |r| ==> r[k] == c.tiledMap.layers[MatchingIndices(IsVisibleTileLayer, c.tiledMap.layers, 0)[k]]
    ensures c.layerIndicesToCollide.Some? ==>
      |r| == |c.layerIndicesToCollide.value|
      && forall k :: 0 <= k < |r| ==> r[k] == TileLayers(c.tiledMap)[c.layerIndicesToCollide.value[k]]
  {
    match c.layerIndicesToCollide
    case None => Filter(IsVisibleTileLayer, c.tiledMap.layers)
    case Some(indices) =>
      var tileLayers := TileLayers(c.tiledMap);
      seq(|indices|, k requires 0 <= k < |indices| => tileLayers[indices[k]])
  }

  // ---------------------------------------------------------------------
  // The whole synthesis.

  /** The tileset part of the synthesis: the colliders of the source
      layers when tileset collisions are on, none otherwise. */
  function TilesetColliders(c: Config, owner: EntityId): (r: seq<Collider>)
    requires CollideIndicesUsable(c)
    ensures |r| == (if c.shouldAddTileSetCollisions then LayersShapeCount(CollisionSourceLayers(c)) else 0)
    ensures forall k :: 0 <= k < |r| ==> !r[k].BoxCollider? && Tagged(r[k], c, owner)
  {
    if c.shouldAddTileSetCollisions then LayersColliders(c, owner, CollisionSourceLayers(c)) else []
  }

  /** The colliders `AddColliders` creates, in creation order: the boxes of
      the collision rectangles first, then the tileset shapes. */
  function Synthesize(c: Config, owner: EntityId): (r: seq<Collider>)
    requires CollideIndicesUsable(c)
    ensures |r| == |BoxRects(c)| + (if c.shouldAddTileSetCollisions then LayersShapeCount(CollisionSourceLayers(c)) else 0)
    ensures forall i :: 0 <= i < |BoxRects(c)| ==>
      r[i] == BoxCollider(BoxRects(c)[i].x as real + c.localOffset.x, BoxRects(c)[i].y as real + c.localOffset.y,
                          BoxRects(c)[i].width as real, BoxRects(c)[i].height as real, c.physicsLayer, owner)
    ensures r[|BoxRects(c)|..] == TilesetColliders(c, owner)
    ensures forall i :: |BoxRects(c)| <= i < |r| ==> !r[i].BoxCollider?
    ensures forall i :: 0 <= i < |r| ==> Tagged(r[i], c, owner)
    ensures c.collisionLayer.None? && !c.shouldAddTileSetCollisions ==> r == []
  {
    var boxes := RectColliders(BoxRects(c), c.localOffset, c.physicsLayer, owner);
    var shapes := TilesetColliders(c, owner);
    SplitConcatenation(boxes, shapes);
    boxes + shapes
  }

  /** The parts of a concatenation are its prefix and suffix. */
  lemma SplitConcatenation(a: seq<Collider>, b: seq<Collider>)
    ensures (a + b)[..|a|] == a && (a + b)[|a|..] == b
    ensures forall k :: 0 <= k < |a| ==> (a + b)[k] == a[k]
    ensures forall k :: |a| <= k < |a| + |b| ==> (a + b)[k] == b[k - |a|]
  {
  }

  /** With tileset collisions off, any collide list, even one holding -1 or
      an index past the tile layers, is accepted and ignored: only the boxes
      of the collision rectangles are created. */
  lemma TilesetCollisionsOffIgnoreCollideList(c: Config, owner: EntityId)
    requires !c.shouldAddTileSetCollisions
    ensures CollideIndicesUsable(c)
    ensures Synthesize(c, owner) == RectColliders(BoxRects(c), c.localOffset, c.physicsLayer, owner)
  {
  }

  /** With tileset collisions on, a collider after the boxes is exactly one
      that some cell of some source layer yields, and (by
      `TileCollidersFromObjects`) one derived from an object on that cell's
      tile. */
  lemma SynthesizedShapesComeFromSourceTiles(c: Config, owner: EntityId, col: Collider)
    requires CollideIndicesValid(c)
    requires c.shouldAddTileSetCollisions
    ensures var src := CollisionSourceLayers(c);
      col in Synthesize(c, owner)[|BoxRects(c)|..] <==>
        exists l, j :: 0 <= l < |src| && 0 <= j < |Tiles(src[l])| && col in TileColliders(c, owner, Tiles(src[l])[j])
  {
    var src := CollisionSourceLayers(c);
    LayersCollidersFromLayers(c, owner, src, col);
    forall l | 0 <= l < |src|
      ensures col in TilesColliders(c, owner, Tiles(src[l])) <==>
        exists j :: 0 <= j < |Tiles(src[l])| && col in TileColliders(c, owner, Tiles(src[l])[j])
    {
      TilesCollidersFromCells(c, owner, Tiles(src[l]), col);
    }
  }

  // ---------------------------------------------------------------------
  // Worked cases.

  /** A 10x10 map of 32-pixel tiles whose collision layer holds the single
      rectangle (0, 0, 32, 32) yields one box at (0, 0) of size 32x32. */
  lemma SingleRectangleYieldsOneBox(owner: EntityId)
    ensures
      var collision := Layer("collision", true, 1.0, 0.0, 0.0, 1.0, 1.0, TileGrid([], [Rect(0, 0, 32, 32)]));
      var m := Map(10, 10, 32, 32, Orthogonal, [collision]);
      var r := NewRenderer(m, Some("collision"), true, false);
      r.Success? && Synthesize(r.value, owner) == [BoxCollider(0.0, 0.0, 32.0, 32.0, 1, owner)]
  {
    var collision := Layer("collision", true, 1.0, 0.0, 0.0, 1.0, 1.0, TileGrid([], [Rect(0, 0, 32, 32)]));
    var m := Map(10, 10, 32, 32, Orthogonal, [collision]);
    assert IsTileLayer(m.layers[0]);
    var r := NewRenderer(m, Some("collision"), true, false);
    assert r.value.collisionLayer == Some(collision);
  }

  /** A tile at cell (2, 3) of a 32x32-tile map whose tileset tile carries an
      ellipse at (4, 4) and a polygon at (1, 2) yields exactly a circle of
      radius 8 and a polygon with the authored points, each at the cell's
      origin plus the object's offset. */
  lemma EllipseAndPolygonTileYieldsTwoColliders(owner: EntityId, points: seq<Vec2>)
    ensures
      var objs := [TmxObject(Ellipse, 4.0, 4.0, []), TmxObject(Polygon, 1.0, 2.0, points)];
      var t := Tile(2, 3, Some(TilesetTile([ObjectGroup(objs)])));
      var ground := Layer("ground", true, 1.0, 0.0, 0.0, 1.0, 1.0, TileGrid([None, Some(t)], []));
      var c := Config(Map(10, 10, 32, 32, Orthogonal, [ground]), 1, None, None, true, None, true, true, Origin);
      Synthesize(c, owner) == [CircleCollider(8.0, Vec2(68.0, 100.0), 1, owner),
                               PolygonCollider(points, Vec2(65.0, 98.0), 1, owner)]
  {
    var objs := [TmxObject(Ellipse, 4.0, 4.0, []), TmxObject(Polygon, 1.0, 2.0, points)];
    var t := Tile(2, 3, Some(TilesetTile([ObjectGroup(objs)])));
    var ground := Layer("ground", true, 1.0, 0.0, 0.0, 1.0, 1.0, TileGrid([None, Some(t)], []));
    var c := Config(Map(10, 10, 32, 32, Orthogonal, [ground]), 1, None, None, true, None, true, true, Origin);
    var circle := CircleCollider(8.0, Vec2(68.0, 100.0), 1, owner);
    var polygon := PolygonCollider(points, Vec2(65.0, 98.0), 1, owner);
    assert CollisionSourceLayers(c) == [ground] by {
      assert MatchingIndices(IsVisibleTileLayer, [ground], 1) == [];
      assert MatchingIndices(IsVisibleTileLayer, [ground], 0) == [0];
    }
    assert ObjectColliders(c, owner, t, objs) == [circle, polygon] by {
      assert objs[1..] == [objs[1]];
      assert objs[1..][1..] == [];
      assert DeriveCollider(c, owner, t, objs[0]) == Some(circle);
      assert DeriveCollider(c, owner, t, objs[1]) == Some(polygon);
    }
    assert TilesColliders(c, owner, [None, Some(t)]) == [circle, polygon] by {
      assert [None, Some(t)][1..] == [Some(t)];
      assert [Some(t)][1..] == [];
      assert TileColliders(c, owner, Some(t)) == [circle, polygon];
    }
    assert LayersColliders(c, owner, [ground]) == [circle, polygon] by {
      assert [ground][1..] == [];
    }
  }

  /** `SetLayersToCollide` stores an index into all layers, which
      `AddColliders` then reads as an index into the tile layers: after an
      image layer, the only tile layer's index is out of range there. */
  lemma CollideIndexCountsNonTileLayers(c: Config)
    requires c.tiledMap.layers == [
      Layer("sky", true, 1.0, 0.0, 0.0, 1.0, 1.0, ImageLayer),
      Layer("ground", true, 1.0, 0.0, 0.0, 1.0, 1.0, TileGrid([], []))]
    ensures SetLayersToCollide(c, ["ground"]).layerIndicesToCollide == Some([1])
    ensures !CollideIndicesValid(SetLayersToCollide(c, ["ground"]))
  {
    var layers := c.tiledMap.layers;
    assert LayerIndices(layers, ["ground"]) == [1];
    assert TileLayers(c.tiledMap) == [layers[1]] by {
      assert MatchingIndices(IsTileLayer, layers, 2) == [];
      assert MatchingIndices(IsTileLayer, layers, 1) == [1];
      assert TileLayerIndices(c.tiledMap) == [1];
    }
    var c' := SetLayersToCollide(c, ["ground"]);
    assert c'.tiledMap == c.tiledMap;
    assert !(0 <= c'.layerIndicesToCollide.value[0] < |TileLayers(c'.tiledMap)|);
  }

  /** With two tile layers after an image layer, naming the first tile layer
      makes `AddColliders` search the second one. */
  lemma CollideIndexSelectsNextTileLayer(c: Config)
    requires c.tiledMap.layers == [
      Layer("sky", true, 1.0, 0.0, 0.0, 1.0, 1.0, ImageLayer),
      Layer("a", true, 1.0, 0.0, 0.0, 1.0, 1.0, TileGrid([], [])),
      Layer("b", true, 1.0, 0.0, 0.0, 1.0, 1.0, TileGrid([], []))]
    ensures CollideIndicesValid(SetLayersToCollide(c, ["a"]))
    ensures CollisionSourceLayers(SetLayersToCollide(c, ["a"])) == [c.tiledMap.layers[2]]
  {
    var layers := c.tiledMap.layers;
    var c' := SetLayersToCollide(c, ["a"]);
    FirstNamedLayerIsSecond(layers);
    SecondAndThirdAreTheTileLayers(c.tiledMap);
    assert c'.tiledMap == c.tiledMap && c'.layerIndicesToCollide == Some([1]);
    SingleCollideIndexSource(c', 1);
  }

  /** A collide list of one in-range index selects just that tile layer. */
  lemma SingleCollideIndexSource(c: Config, i: int)
    requires c.layerIndicesToCollide == Some([i]) && 0 <= i < |TileLayers(c.tiledMap)|
    ensures CollideIndicesValid(c)
    ensures CollisionSourceLayers(c) == [TileLayers(c.tiledMap)[i]]
  {
    assert CollideIndicesValid(c);
    assert |CollisionSourceLayers(c)| == 1;
  }

  /** In the three-layer map, "a" names the layer at index 1. */
  lemma FirstNamedLayerIsSecond(layers: seq<Layer>)
    requires |layers| == 3 && layers[0].name == "sky" && layers[1].name == "a"
    ensures LayerIndices(layers, ["a"]) == [1]
  {
    assert layers[0].name != "a";
    assert IndexOfLayerNamed(layers, "a") == 1;
  }

  /** After one non-tile layer, the next two tile layers are the map's
      tile layers. */
  lemma SecondAndThirdAreTheTileLayers(m: Map)
    requires |m.layers| == 3 && !IsTileLayer(m.layers[0]) && IsTileLayer(m.layers[1]) && IsTileLayer(m.layers[2])
    ensures TileLayers(m) == [m.layers[1], m.layers[2]]
  {
    assert MatchingIndices(IsTileLayer, m.layers, 3) == [];
    assert MatchingIndices(IsTileLayer, m.layers, 2) == [2];
    assert MatchingIndices(IsTileLayer, m.layers, 1) == [1, 2];
    assert TileLayerIndices(m) == [1, 2];
  }
}
