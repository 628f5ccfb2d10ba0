/** The already-parsed tile map the renderer consumes: layers, tiles and the
    shapes authored on tileset tiles. Parsing, tile animation and the map's own
    coordinate conversions stay outside; collision rectangles of a tile layer
    are taken as given data. */
module Tiled {
  import opened Wrappers
  import opened Geometry
  import opened Seqs

  /** `TmxObjectType`: the kind of an authored object. */
  datatype ObjectKind = Basic | Point | TileObject | Ellipse | Polygon | Polyline | Text

  /** An authored object in tile-local pixel space: its offset and, for
      polygons, its vertices. */
  datatype TmxObject = TmxObject(kind: ObjectKind, x: real, y: real, points: seq<Vec2>)

  /** An object group authored on a tileset tile. */
  datatype ObjectGroup = ObjectGroup(objects: seq<TmxObject>)

  /** Tileset metadata of a tile: its authored object groups. */
  datatype TilesetTile = TilesetTile(objectGroups: seq<ObjectGroup>)

  /** A tile placed on a layer at grid cell (x, y); a `None` tileset tile is a
      tile without metadata. */
  datatype Tile = Tile(x: int, y: int, tilesetTile: Option<TilesetTile>)

  /** The layer kinds of a map. Only tile layers carry tiles; their collision
      rectangles are what `GetCollisionRectangles` returns for them. */
  datatype LayerKind =
    | TileGrid(tiles: seq<Option<Tile>>, collisionRects: seq<Rect>)
    | ImageLayer
    | ObjectLayer
    | GroupLayer

  /** A map layer (`ITmxLayer`): name, visibility, opacity, offset, parallax. */
  datatype Layer = Layer(
    name: string,
    visible: bool,
    opacity: real,
    offsetX: real,
    offsetY: real,
    parallaxFactorX: real,
    parallaxFactorY: real,
    kind: LayerKind)

  datatype Orientation = Orthogonal | Isometric | Staggered | Hexagonal

  /** A map: grid size in tiles, tile size in pixels and all layers in order. */
  datatype Map = Map(
    width: int,
    height: int,
    tileWidth: int,
    tileHeight: int,
    orientation: Orientation,
    layers: seq<Layer>)

  predicate IsTileLayer(l: Layer) { l.kind.TileGrid? }

  predicate IsVisibleTileLayer(l: Layer) { l.kind.TileGrid? && l.visible }

  /** The map indices of the tile layers, ascending and complete. */
  function TileLayerIndices(m: Map): (r: seq<int>)
    ensures forall k :: 0 <= k < |r| ==> 0 <= r[k] < |m.layers| && IsTileLayer(m.layers[r[k]])
    ensures forall k, l :: 0 <= k < l < |r| ==> r[k] < r[l]
    ensures forall i :: 0 <= i < |m.layers| && IsTileLayer(m.layers[i]) ==> i in r
  {
    MatchingIndices(IsTileLayer, m.layers, 0)
  }

  /** `TmxMap.TileLayers`: the tile layers of the map, in map order, each
      once: the k-th entry is the layer at the k-th tile-layer index. */
  function TileLayers(m: Map): (r: seq<Layer>)
    ensures |r| == |TileLayerIndices(m)|
    ensures forall k :: 0 <= k < |r| ==> r[k] == m.layers[TileLayerIndices(m)[k]]
    ensures forall i :: 0 <= i < |m.layers| && IsTileLayer(m.layers[i]) ==> m.layers[i] in r
  {
    Filter(IsTileLayer, m.layers)
  }

  /** The collision rectangles of a layer; only tile layers have any. */
  function CollisionRects(l: Layer): (rects: seq<Rect>)
  {
    if l.kind.TileGrid? then l.kind.collisionRects else []
  }

  /** The tiles of a layer; only tile layers have any. */
  function Tiles(l: Layer): (tiles: seq<Option<Tile>>)
  {
    if l.kind.TileGrid? then l.kind.tiles else []
  }

  /** `Layers.IndexOf(GetLayer(name))`: the index of the first layer called
      `name`, or -1 when no layer has that name. */
  function IndexOfLayerNamed(layers: seq<Layer>, name: string): (r: int)
    ensures -1 <= r < |layers|
    ensures r == -1 <==> forall j :: 0 <= j < |layers| ==> layers[j].name != name
    ensures 0 <= r ==> layers[r].name == name
    ensures 0 <= r ==> forall j :: 0 <= j < r ==> layers[j].name != name
  {
    if layers == [] then -1
    else if layers[0].name == name then 0
    else
      var k := IndexOfLayerNamed(layers[1..], name);
      if k == -1 then -1 else k + 1
  }

  /** A tile layer called `name`. */
  predicate IsTileLayerNamed(l: Layer, name: string)
  {
    IsTileLayer(l) && l.name == name
  }

  /** `i` is the position of the first tile layer called `name`. */
  predicate IsFirstTileLayerNamed(layers: seq<Layer>, name: string, i: int)
  {
    && 0 <= i < |layers|
    && IsTileLayerNamed(layers[i], name)
    && forall j :: 0 <= j < i ==> !IsTileLayerNamed(layers[j], name)
  }

  /** `TileLayers[name]`: the first tile layer called `name`, if any. */
  function FindTileLayer(m: Map, name: string): (r: Option<Layer>)
    ensures r.Some? <==> exists i :: 0 <= i < |m.layers| && IsTileLayerNamed(m.layers[i], name)
    ensures r.Some? ==> exists i :: IsFirstTileLayerNamed(m.layers, name, i) && r.value == m.layers[i]
  {
    var named := (l: Layer) => IsTileLayerNamed(l, name);
    var indices := MatchingIndices(named, m.layers, 0);
    if indices == [] then None
    else
      var i := indices[0];
      assert IsFirstTileLayerNamed(m.layers, name, i) by {
        forall j | 0 <= j < i ensures !IsTileLayerNamed(m.layers[j], name) {
          assert IsTileLayerNamed(m.layers[j], name) ==> j in indices;
        }
      }
      Some(m.layers[i])
  }
}
