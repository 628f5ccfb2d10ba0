/** `TiledTileComponent`: one tile rendered as its own component, whose
    footprint is its grid cell and whose depth follows its vertical position
    in the camera's view. */
module TileComponent {
  import opened Geometry
  import opened Tiled

  /** The component's state: the map's tile size, the tile it shows, whether
      depth follows the y coordinate, its local offset and its layer depth. */
  datatype TileComponent = TileComponent(
    mapTileWidth: int,
    mapTileHeight: int,
    tile: Tile,
    layerDepthFromYCoordinate: bool,
    localOffset: Vec2,
    layerDepth: real)
  {
    /** `Width`: the map's tile width. */
    function Width(): (w: real) { mapTileWidth as real }

    /** `Height`: the map's tile height. */
    function Height(): (h: real) { mapTileHeight as real }

    /** The local-space cell the component covers contains `p`. */
    predicate CoversLocal(p: Vec2)
    {
      localOffset.x <= p.x < localOffset.x + Width() && localOffset.y <= p.y < localOffset.y + Height()
    }
  }

  /** The constructor: the local offset is fixed to the tile's grid cell, so
      that visibility culling is right from the first frame. The constructor
      does not touch the depth: `layerDepth` stands for the value of the
      inherited `LayerDepth` at construction, which is kept as it is. */
  function NewTileComponent(m: Map, tile: Tile, layerDepthFromYCoordinate: bool, layerDepth: real): (r: TileComponent)
    ensures r.Width() == m.tileWidth as real && r.Height() == m.tileHeight as real
    ensures r.localOffset == Vec2(tile.x as real * m.tileWidth as real, tile.y as real * m.tileHeight as real)
    ensures r.tile == tile && r.layerDepthFromYCoordinate == layerDepthFromYCoordinate && r.layerDepth == layerDepth
  {
    var c := TileComponent(m.tileWidth, m.tileHeight, tile, layerDepthFromYCoordinate, Origin, layerDepth);
    c.(localOffset := Vec2(tile.x as real * c.Width(), tile.y as real * c.Height()))
  }

  /** Components of different cells of a map with positive tile size cover
      disjoint cells: the grid is cut into footprints without overlap. */
  lemma FootprintsOfDistinctTilesAreDisjoint(m: Map, a: Tile, b: Tile, p: Vec2)
    requires m.tileWidth > 0 && m.tileHeight > 0
    requires (a.x, a.y) != (b.x, b.y)
    ensures !(NewTileComponent(m, a, true, 0.0).CoversLocal(p) && NewTileComponent(m, b, true, 0.0).CoversLocal(p))
  {
    var w := m.tileWidth as real;
    var h := m.tileHeight as real;
    if NewTileComponent(m, a, true, 0.0).CoversLocal(p) && NewTileComponent(m, b, true, 0.0).CoversLocal(p) {
      if a.x != b.x {
        SeparatedCells(a.x, b.x, w, p.x);
      } else {
        SeparatedCells(a.y, b.y, h, p.y);
      }
    }
  }

  /** One coordinate of the cell argument: distinct cells of positive size
      `w` share no point. */
  lemma SeparatedCells(i: int, j: int, w: real, v: real)
    requires w > 0.0 && i != j
    ensures !(i as real * w <= v < i as real * w + w && j as real * w <= v < j as real * w + w)
    decreases if i < j then 0 else 1
  {
    if i < j {
      assert (i + 1) as real * w <= j as real * w by {
        assert (i + 1) as real <= j as real;
      }
      assert i as real * w + w == (i + 1) as real * w;
    } else {
      SeparatedCells(j, i, w, v);
    }
  }

  /** The cell footprint of the next column starts where this one ends. */
  lemma NeighbouringFootprintsAbut(m: Map, t: Tile)
    ensures NewTileComponent(m, Tile(t.x + 1, t.y, t.tilesetTile), true, 0.0).localOffset.x
            == NewTileComponent(m, t, true, 0.0).localOffset.x + m.tileWidth as real
    ensures NewTileComponent(m, Tile(t.x, t.y + 1, t.tilesetTile), true, 0.0).localOffset.y
            == NewTileComponent(m, t, true, 0.0).localOffset.y + m.tileHeight as real
  {
  }

  // ---------------------------------------------------------------------
  // Depth from the y coordinate.

  /** `Mathf.Clamp01`. */
  function Clamp01(v: real): (r: real)
    ensures 0.0 <= r <= 1.0
    ensures 0.0 <= v <= 1.0 ==> r == v
    ensures v < 0.0 ==> r == 0.0
    ensures 1.0 < v ==> r == 1.0
  {
    if v < 0.0 then 0.0 else if v > 1.0 then 1.0 else v
  }

  /** The depth of a tile whose centre lies at world height `centreY`, for a
      camera whose visible bounds start at `cameraTop` and are
      `cameraHeight` high. */
  function DepthFromY(centreY: real, cameraTop: real, cameraHeight: real): (d: real)
    requires cameraHeight != 0.0
    ensures 0.0 <= d <= 1.0
  {
    Clamp01(1.0 - (centreY - cameraTop) / cameraHeight)
  }

  /** Lower on screen means nearer to depth 0: for a fixed camera, depth
      never increases as the tile centre moves down. */
  lemma DepthNonIncreasingInY(y1: real, y2: real, cameraTop: real, cameraHeight: real)
    requires cameraHeight > 0.0
    requires y1 <= y2
    ensures DepthFromY(y2, cameraTop, cameraHeight) <= DepthFromY(y1, cameraTop, cameraHeight)
  {
    assert (y1 - cameraTop) / cameraHeight <= (y2 - cameraTop) / cameraHeight by {
      DivideMonotone(y1 - cameraTop, y2 - cameraTop, cameraHeight);
    }
  }

  /** Division by a positive number keeps order. */
  lemma DivideMonotone(a: real, b: real, h: real)
    requires h > 0.0 && a <= b
    ensures a / h <= b / h
  {
    assert b / h - a / h == (b - a) / h;
  }

  /** A tile centred on the camera's top edge gets depth 1, one centred on
      its bottom edge depth 0, and tiles beyond either edge stay clamped. */
  lemma DepthAtCameraEdges(cameraTop: real, cameraHeight: real, y: real)
    requires cameraHeight > 0.0
    ensures DepthFromY(cameraTop, cameraTop, cameraHeight) == 1.0
    ensures DepthFromY(cameraTop + cameraHeight, cameraTop, cameraHeight) == 0.0
    ensures y <= cameraTop ==> DepthFromY(y, cameraTop, cameraHeight) == 1.0
    ensures cameraTop + cameraHeight <= y ==> DepthFromY(y, cameraTop, cameraHeight) == 0.0
  {
    if y <= cameraTop {
      DivideMonotone(y - cameraTop, 0.0, cameraHeight);
    }
    if cameraTop + cameraHeight <= y {
      DivideMonotone(cameraHeight, y - cameraTop, cameraHeight);
    }
  }

  /** A camera whose view starts at 0 and is 480 high puts a tile centred at
      240 at depth one half. */
  lemma DepthAtMidView()
    ensures DepthFromY(240.0, 0.0, 480.0) == 0.5
  {
  }

  /** The world height of the tile's centre: entity position plus local
      offset plus half the scaled tile height. */
  function TileCentreY(c: TileComponent, position: Vec2, scale: Vec2): (r: real)
    ensures var top := position.y + c.localOffset.y;
      r - top == (top + c.mapTileHeight as real * scale.y) - r
  {
    position.y + c.localOffset.y + (c.mapTileHeight as real * scale.y) / 2.0
  }

  /** `Update`: when depth follows the y coordinate and the tile is visible,
      the depth is recomputed from the tile centre's place in the camera's
      view; otherwise nothing changes. */
  function Update(c: TileComponent, position: Vec2, scale: Vec2, cameraBounds: RectF, isVisible: bool): (r: TileComponent)
    requires c.layerDepthFromYCoordinate && isVisible ==> cameraBounds.height != 0.0
    ensures r.(layerDepth := c.layerDepth) == c
    ensures !(c.layerDepthFromYCoordinate && isVisible) ==> r == c
    ensures c.layerDepthFromYCoordinate && isVisible ==>
      r.layerDepth == DepthFromY(TileCentreY(c, position, scale), cameraBounds.Top(), cameraBounds.height)
    ensures 0.0 <= c.layerDepth <= 1.0 ==> 0.0 <= r.layerDepth <= 1.0
  {
    if c.layerDepthFromYCoordinate && isVisible then
      c.(layerDepth := DepthFromY(TileCentreY(c, position, scale), cameraBounds.Top(), cameraBounds.height))
    else c
  }

  /** For one camera, of two visible copies of a component the one whose
      entity stands lower gets the smaller or equal depth. */
  lemma UpdateOrdersByEntityHeight(c: TileComponent, p1: Vec2, p2: Vec2, scale: Vec2, cameraBounds: RectF)
    requires c.layerDepthFromYCoordinate
    requires cameraBounds.height > 0.0
    requires p1.y <= p2.y
    ensures Update(c, p2, scale, cameraBounds, true).layerDepth <= Update(c, p1, scale, cameraBounds, true).layerDepth
  {
    DepthNonIncreasingInY(TileCentreY(c, p1, scale), TileCentreY(c, p2, scale), cameraBounds.Top(), cameraBounds.height);
  }
}
