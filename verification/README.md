# Tile-map renderer: collider lifecycle, layer selection, tile depth

A Dafny model of the core of Nez's tile-map rendering components:

- `TiledMapRenderer` turns an already-parsed tile map into physics colliders. Each collision rectangle of the collision layer becomes a box. Each ellipse or polygon authored on a tileset tile becomes a circle or a polygon.
- The renderer keeps those colliders in step with its entity through `AddColliders`, `RemoveColliders` and the attach, detach and position-changed callbacks.
- `Render` decides which layers to submit. The row, column, tile and bounds queries translate world positions into map-local ones.
- `TiledTileComponent` renders one tile as its own component. It fixes the tile's local offset to its grid cell and derives the tile's depth from its vertical place in the camera's view.
- `FileHelpers.NormalizeFilePathSeparators` replaces the platform's other slash by its directory separator.

Modules:

- `Wrappers`: `Option` (null) and `Result` (raising).
- `Seqs`: order-preserving filter, with the strictly increasing indices of the kept elements.
- `Geometry`: vectors, rectangles, the C# truncating float-to-int cast.
- `Tiled`: the map data the renderer reads.
- `MapRenderer`: configuration, constructor, layer setters, queries, render selection.
- `ColliderSynthesis`: what `AddColliders` builds.
- `ColliderLifecycle`: the registry and tracked-array state machine.
- `TileComponent`: per-tile offset and depth.
- `FileHelpers`: path separators.

Modelling choices:

- Floats are `real`. Rounding is not modelled.
- The physics registry is a multiset of registrations. A registration is a collider together with the entity position at which it was registered, because the registry files colliders by their world bounds. So "stale" means "registered at an old position".
- The tracked array `_colliders` is `Option<seq<…>>`, because it is null before the first add and after a remove.
- The host entity, its position, the camera bounds, `IsVisible` and the map's conversions `WorldToTilePositionX/Y` are parameters. So are the collision layer's tile lookups `GetTileAtWorldPosition` and `GetTilesIntersectingBounds`.
- `TiledMap.GetLayer` followed by `Layers.IndexOf` is fixed as "the index of the first layer with the name, or -1" (`Tiled.IndexOfLayerNamed`). Under that assumption an unknown layer name in `SetLayersToRender`/`SetLayersToCollide` gives the index -1 and is not an error, and of several layers sharing a name only the first is ever selected.
- `GetCollisionRectangles` is given data: the `collisionRects` field of a tile layer.

Quirks kept as written:

- A bare `AddColliders` replaces the tracked array without unregistering the old colliders (`ColliderLifecycle.BareAddCollidersLeaksOldColliders`). Only remove-then-add keeps the registry in step.
- `SetLayersToCollide` stores indices into all layers, but `AddColliders` reads them as indices into the tile layers (`ColliderSynthesis.CollideIndexCountsNonTileLayers`, `ColliderSynthesis.CollideIndexSelectsNextTileLayer`). The list is read only when collider creation and tileset collisions are both on; only then does an index that is out of range for the tile layers raise. The model makes in-range indices a precondition in exactly that case (`ColliderSynthesis.CollideIndicesUsable`).
- `Render` with a layer subset submits the selected visible layers in map order, not in the order of the configured list. A repeated index is submitted once.
- Ellipses always become circles of radius `TileWidth / 4`, whatever their authored size.

## Model

| member | source | states |
|---|---|---|
| `MapRenderer.NewRenderer` | Nez.Portable/ECS/Components/Renderables/TiledMapRenderer.cs:36-45 | a named collision layer must be a tile layer of the map, else the constructor fails with that name; otherwise the collision layer is the first tile layer with that name; flags come from the arguments; physics layer 1, no layer subsets, auto-update on, zero local offset |
| `Tiled.IndexOfLayerNamed` | Nez.Portable/ECS/Components/Renderables/TiledMapRenderer.cs:66 | result is -1 exactly when no layer has the name; otherwise it is the first layer with that name |
| `Tiled.FindTileLayer` | Nez.Portable/ECS/Components/Renderables/TiledMapRenderer.cs:44 | finds a layer exactly when some tile layer of the map has the name, and what it finds is the first such tile layer |
| `Tiled.TileLayerIndices` | Nez.Portable/ECS/Components/Renderables/TiledMapRenderer.cs:228 | the positions of the tile layers among all layers: strictly increasing, each a tile layer, none missing |
| `Tiled.TileLayers` | Nez.Portable/ECS/Components/Renderables/TiledMapRenderer.cs:228 | the map's tile layers in map order, each as often as it occurs: element k is the layer at the k-th tile-layer position |
| `MapRenderer.LayerIndices` | Nez.Portable/ECS/Components/Renderables/TiledMapRenderer.cs:63-66 | one index per name; -1 exactly for a name no layer carries; otherwise the in-range index of the first layer with that name |
| `MapRenderer.SetLayersToRender` | Nez.Portable/ECS/Components/Renderables/TiledMapRenderer.cs:61-67 | sets the render subset to the names' layer indices and changes no other field |
| `MapRenderer.SetLayerToRender` | Nez.Portable/ECS/Components/Renderables/TiledMapRenderer.cs:51-55 | same as setting a render subset of one name |
| `MapRenderer.SetLayersToCollide` | Nez.Portable/ECS/Components/Renderables/TiledMapRenderer.cs:73-79 | sets the collide list to the names' indices into all layers and changes no other field |
| `MapRenderer.LocalPoint` | Nez.Portable/ECS/Components/Renderables/TiledMapRenderer.cs:104 | the map-local point is the one that entity position + local offset carry back onto the world point |
| `MapRenderer.GetRowAtWorldPosition` | Nez.Portable/ECS/Components/Renderables/TiledMapRenderer.cs:84-88 | the map's row conversion applied to the map-local y of the world y |
| `MapRenderer.GetColumnAtWorldPosition` | Nez.Portable/ECS/Components/Renderables/TiledMapRenderer.cs:90-94 | the map's column conversion applied to the map-local x of the world x |
| `MapRenderer.GetTileAtWorldPosition` | Nez.Portable/ECS/Components/Renderables/TiledMapRenderer.cs:99-107 | needs a collision layer; asks that layer about the map-local point of the world position |
| `MapRenderer.GetTilesIntersectingBounds` | Nez.Portable/ECS/Components/Renderables/TiledMapRenderer.cs:115-122 | needs a collision layer; asks that layer about bounds of the same size whose location is moved back by entity position + local offset, each coordinate truncated toward zero |
| `MapRenderer.RowAndColumnQueriesUndoPlacement` | Nez.Portable/ECS/Components/Renderables/TiledMapRenderer.cs:84-94 | a world coordinate equal to map-local coordinate + entity position + local offset is converted as the map-local coordinate |
| `MapRenderer.RowAndColumnQueriesFollowEntity` | Nez.Portable/ECS/Components/Renderables/TiledMapRenderer.cs:84-94 | moving the entity and the queried point by the same amount leaves the row and column unchanged |
| `MapRenderer.TileQueryUndoesPlacement` | Nez.Portable/ECS/Components/Renderables/TiledMapRenderer.cs:99-107 | needs a collision layer; asks that layer about world position minus (entity position + local offset) |
| `MapRenderer.BoundsQueryUndoesPlacement` | Nez.Portable/ECS/Components/Renderables/TiledMapRenderer.cs:115-122 | needs a collision layer; when entity position + local offset lies on whole pixels, bounds written as map-local bounds + that offset are queried as the map-local bounds |
| `MapRenderer.BoundsQueryAtAnyPosition` | Nez.Portable/ECS/Components/Renderables/TiledMapRenderer.cs:115-122 | needs a collision layer; at any entity position the queried bounds are the given bounds moved back by the toward-zero truncation of entity position + local offset, same size |
| `MapRenderer.BoundsQueryTruncatesTowardZero` | Nez.Portable/ECS/Components/Renderables/TiledMapRenderer.cs:120 | an entity position + local offset of (-0.5, -0.5) moves the bounds by nothing, as truncation (not flooring) gives 0 |
| `MapRenderer.SelectLayers` | Nez.Portable/ECS/Components/Renderables/TiledMapRenderer.cs:157-161 | strictly increasing in-range indices; each layer is visible and in the subset; every visible layer in the subset is included |
| `MapRenderer.Render` | Nez.Portable/ECS/Components/Renderables/TiledMapRenderer.cs:149-163 | without a subset: exactly one whole-map submission at entity position + local offset; with one: single-layer submissions in strictly increasing index order, exactly the visible layers the subset names, each once |
| `MapRenderer.SelectLayersIgnoresSubsetOrder` | Nez.Portable/ECS/Components/Renderables/TiledMapRenderer.cs:159 | two subsets with the same elements select the same layers, whatever their order or repetitions |
| `MapRenderer.RenderAfterSetLayersToRenderPicksFirstOfEachName` | Nez.Portable/ECS/Components/Renderables/TiledMapRenderer.cs:149-163 | whatever the layer names, after setting a subset by names a layer is submitted exactly when it is visible, named, and the first layer with its name |
| `MapRenderer.RenderAfterSetLayersToRender` | Nez.Portable/ECS/Components/Renderables/TiledMapRenderer.cs:149-163 | with unique layer names, after setting a subset by names a layer is submitted exactly when it is visible and named |
| `ColliderSynthesis.BoxRects` | Nez.Portable/ECS/Components/Renderables/TiledMapRenderer.cs:189-192 | no collision layer gives no rectangles; otherwise the collision layer's rectangles, none when it is not a tile layer |
| `ColliderSynthesis.RectColliders` | Nez.Portable/ECS/Components/Renderables/TiledMapRenderer.cs:195-204 | one box per rectangle in rectangle order, at rectangle position + local offset, with the rectangle's size, physics layer and entity |
| `ColliderSynthesis.DeriveCollider` | Nez.Portable/ECS/Components/Renderables/TiledMapRenderer.cs:246-274 | ellipse gives a circle of radius TileWidth/4; polygon gives a polygon with the authored points; other kinds give nothing; offset is tile grid origin + local offset + object offset; tagged with physics layer and entity |
| `ColliderSynthesis.ObjectColliders` | Nez.Portable/ECS/Components/Renderables/TiledMapRenderer.cs:246-283 | as many colliders as ellipse/polygon objects, none a box, all tagged |
| `ColliderSynthesis.ObjectCollidersFromObjects` | Nez.Portable/ECS/Components/Renderables/TiledMapRenderer.cs:246-283 | a collider is produced exactly when it is derived from one of the tile's objects |
| `ColliderSynthesis.ObjectCollidersAppend` | Nez.Portable/ECS/Components/Renderables/TiledMapRenderer.cs:246 | colliders of concatenated object lists are the concatenation of their colliders, so object order is kept |
| `ColliderSynthesis.TileColliders` | Nez.Portable/ECS/Components/Renderables/TiledMapRenderer.cs:238-245 | an empty cell or a tile without tileset objects yields nothing; otherwise the count is that tile's shape count |
| `ColliderSynthesis.TilesColliders` | Nez.Portable/ECS/Components/Renderables/TiledMapRenderer.cs:236-286 | a layer yields the sum of its cells' shape counts, no boxes, all tagged |
| `ColliderSynthesis.TilesCollidersFromCells` | Nez.Portable/ECS/Components/Renderables/TiledMapRenderer.cs:238-246 | a collider comes from a layer exactly when it comes from one of its cells |
| `ColliderSynthesis.TilesCollidersAppend` | Nez.Portable/ECS/Components/Renderables/TiledMapRenderer.cs:238 | cells are visited in order: concatenated cells give concatenated colliders |
| `ColliderSynthesis.LayersColliders` | Nez.Portable/ECS/Components/Renderables/TiledMapRenderer.cs:211-229 | the selected layers yield the sum of their cells' shape counts, no boxes, all tagged |
| `ColliderSynthesis.LayersCollidersFromLayers` | Nez.Portable/ECS/Components/Renderables/TiledMapRenderer.cs:211-229 | a collider comes from the selected layers exactly when it comes from the tiles of one of them |
| `ColliderSynthesis.LayersCollidersAppend` | Nez.Portable/ECS/Components/Renderables/TiledMapRenderer.cs:209-229 | layers are visited in order: concatenated layer lists give concatenated colliders |
| `ColliderSynthesis.FirstGroupObjects` | Nez.Portable/ECS/Components/Renderables/TiledMapRenderer.cs:243 | objects are found exactly when the cell has a tileset tile with an object group, and they are the first group's objects |
| `ColliderSynthesis.TileCollidersFromObjects` | Nez.Portable/ECS/Components/Renderables/TiledMapRenderer.cs:238-283 | a collider comes from a cell exactly when the cell's first object group has an object it is derived from |
| `ColliderSynthesis.CollisionSourceLayers` | Nez.Portable/ECS/Components/Renderables/TiledMapRenderer.cs:209-230 | without a collide list: the visible tile layers in map order, each as often as it occurs (element k is the layer at the k-th visible-tile-layer position); with one: the tile layers at the listed indices, in list order, visible or not |
| `ColliderSynthesis.TilesetColliders` | Nez.Portable/ECS/Components/Renderables/TiledMapRenderer.cs:207-229 | with tileset collisions off nothing, whatever the collide list holds; otherwise as many non-box, tagged colliders as the source layers' shape counts |
| `ColliderSynthesis.TilesetCollisionsOffIgnoreCollideList` | Nez.Portable/ECS/Components/Renderables/TiledMapRenderer.cs:207-231 | with tileset collisions off any collide list is accepted, and only the boxes of the collision rectangles are created |
| `ColliderSynthesis.Synthesize` | Nez.Portable/ECS/Components/Renderables/TiledMapRenderer.cs:187-231 | count = rectangles + tileset shape counts; first the boxes, one per rectangle at rectangle + offset; then exactly the tileset colliders of the source layers, none a box; all tagged; no collision layer and no tileset collisions gives nothing |
| `ColliderSynthesis.SynthesizedShapesComeFromSourceTiles` | Nez.Portable/ECS/Components/Renderables/TiledMapRenderer.cs:207-245 | with tileset collisions on, a collider after the boxes is exactly one that some cell of some source layer yields |
| `ColliderSynthesis.SingleRectangleYieldsOneBox` | Nez.Portable/ECS/Components/Renderables/TiledMapRenderer.cs:189-205 | a 10x10 map of 32-pixel tiles with one rectangle (0,0,32,32) yields one box (0,0,32,32) |
| `ColliderSynthesis.EllipseAndPolygonTileYieldsTwoColliders` | Nez.Portable/ECS/Components/Renderables/TiledMapRenderer.cs:236-286 | a tile carrying one ellipse and one polygon yields exactly a circle of radius 8 and the polygon, both at the cell origin + object offset |
| `ColliderSynthesis.CollideIndexCountsNonTileLayers` | Nez.Portable/ECS/Components/Renderables/TiledMapRenderer.cs:73-79 | after an image layer, naming the only tile layer stores index 1, which is out of range for the tile layers |
| `ColliderSynthesis.CollideIndexSelectsNextTileLayer` | Nez.Portable/ECS/Components/Renderables/TiledMapRenderer.cs:226-229 | after an image layer, naming the first of two tile layers makes the second one the collision source |
| `ColliderLifecycle.FreshRegistrations` | Nez.Portable/ECS/Components/Renderables/TiledMapRenderer.cs:203 | one registration per synthesised collider, in creation order, each at the entity's current position (the same holds for the shape registrations at lines 262 and 273) |
| `ColliderLifecycle.AddColliders` | Nez.Portable/ECS/Components/Renderables/TiledMapRenderer.cs:182-234 | disabled: nothing changes; enabled: the fresh registrations are added to the registry and replace the tracked array |
| `ColliderLifecycle.RemoveColliders` | Nez.Portable/ECS/Components/Renderables/TiledMapRenderer.cs:288-296 | removes each tracked registration once from the registry and nulls the tracked array; nothing changes when it is already null |
| `ColliderLifecycle.OnAddedToEntity` | Nez.Portable/ECS/Components/Renderables/TiledMapRenderer.cs:139 | creation disabled: nothing changes; enabled: one tracked registration per synthesised collider, in order, at the host's position, each added to the registry |
| `ColliderLifecycle.OnRemovedFromEntity` | Nez.Portable/ECS/Components/Renderables/TiledMapRenderer.cs:141 | the tracked array becomes null, the registry loses each tracked registration once, and nothing is added |
| `ColliderLifecycle.OnEntityTransformChanged` | Nez.Portable/ECS/Components/Renderables/TiledMapRenderer.cs:129-137 | anything but a position change with creation enabled changes nothing |
| `ColliderLifecycle.RemoveCollidersRestoresOthers` | Nez.Portable/ECS/Components/Renderables/TiledMapRenderer.cs:288-296 | on an in-step registry, removal leaves only other components' colliders, and a second removal changes nothing |
| `ColliderLifecycle.PositionChangeResynchronises` | Nez.Portable/ECS/Components/Renderables/TiledMapRenderer.cs:129-137 | after a position change the registry is the other components' colliders plus exactly the fresh synthesis, all at the new position: none stale, none duplicated |
| `ColliderLifecycle.BareAddCollidersLeaksOldColliders` | Nez.Portable/ECS/Components/Renderables/TiledMapRenderer.cs:233 | a bare add over tracked colliders keeps the old registrations, and the registry falls out of step |
| `ColliderLifecycle.DetachThenReattachRegenerates` | Nez.Portable/ECS/Components/Renderables/TiledMapRenderer.cs:139-141 | attach puts the registry in step; detach restores the clean state; re-attach rebuilds the same state |
| `ColliderLifecycle.SingleRectangleAttachDetach` | Nez.Portable/ECS/Components/Renderables/TiledMapRenderer.cs:139-141 | the one-rectangle map registers one box on attach and leaves an empty registry after detach |
| `Geometry.Truncate` | Nez.Portable/ECS/Components/Renderables/TiledMapRenderer.cs:120 | the float-to-int conversion truncates toward zero |
| `Geometry.TruncationIsUnique` | Nez.Portable/ECS/Components/Renderables/TiledMapRenderer.cs:120 | a value has one truncation toward zero |
| `Geometry.ToPoint` | Nez.Portable/ECS/Components/Renderables/TiledMapRenderer.cs:120 | `Vector2.ToPoint` truncates each coordinate toward zero |
| `TileComponent.NewTileComponent` | Nez.Portable/ECS/Components/Renderables/TiledTileComponent.cs:15-31 | width and height are the map's tile size; the local offset is (Tile.X*TileWidth, Tile.Y*TileHeight) |
| `TileComponent.FootprintsOfDistinctTilesAreDisjoint` | Nez.Portable/ECS/Components/Renderables/TiledTileComponent.cs:31 | with positive tile size, components of different cells cover disjoint cells |
| `TileComponent.SeparatedCells` | Nez.Portable/ECS/Components/Renderables/TiledTileComponent.cs:31 | along one axis, two different cells of positive size share no point |
| `TileComponent.NeighbouringFootprintsAbut` | Nez.Portable/ECS/Components/Renderables/TiledTileComponent.cs:31 | the next column's or row's cell starts where this one ends |
| `TileComponent.Clamp01` | Nez.Portable/ECS/Components/Renderables/TiledTileComponent.cs:58 | the result lies in [0,1]; a value in [0,1] is kept; below 0 gives 0, above 1 gives 1 |
| `TileComponent.DepthFromY` | Nez.Portable/ECS/Components/Renderables/TiledTileComponent.cs:58 | the depth always lies in [0,1] |
| `TileComponent.DepthNonIncreasingInY` | Nez.Portable/ECS/Components/Renderables/TiledTileComponent.cs:53-58 | for a camera of positive height, depth never increases as the tile centre moves down |
| `TileComponent.DepthAtCameraEdges` | Nez.Portable/ECS/Components/Renderables/TiledTileComponent.cs:53-58 | centre at the camera top gives 1 and at the bottom gives 0; beyond either edge the depth stays clamped at 1 or 0 |
| `TileComponent.DepthAtMidView` | Nez.Portable/ECS/Components/Renderables/TiledTileComponent.cs:53-58 | camera top 0 and height 480 with centre 240 gives depth 0.5 |
| `TileComponent.TileCentreY` | Nez.Portable/ECS/Components/Renderables/TiledTileComponent.cs:48-53 | the tile centre's world y lies halfway between the tile's top (entity y + local offset y) and its bottom (top + tile height * scale y) |
| `TileComponent.Update` | Nez.Portable/ECS/Components/Renderables/TiledTileComponent.cs:46-62 | only the depth changes; with depth-from-Y off or tile not visible nothing changes; otherwise depth = clamp01(1 - (centreY - camTop)/camHeight), with centreY the tile centre of `TileCentreY`; a depth in [0,1] stays in [0,1] |
| `TileComponent.UpdateOrdersByEntityHeight` | Nez.Portable/ECS/Components/Renderables/TiledTileComponent.cs:46-62 | for one camera, the lower of two positions gets the smaller or equal depth |
| `FileHelpers.NotSeparatorFor` | Nez.Portable/Utils/FileHelpers/FileHelpers.cs:9-12 | NotSeparator is always a backslash, so it equals the separator exactly on a backslash platform |
| `FileHelpers.Replace` | Nez.Portable/Utils/FileHelpers/FileHelpers.cs:16 | same length; each `from` becomes `to`; every other character stays in place |
| `FileHelpers.NormalizeFilePathSeparators` | Nez.Portable/Utils/FileHelpers/FileHelpers.cs:14-17 | same length; each NotSeparator becomes Separator; every other character stays in place |
| `FileHelpers.NormalizeRemovesNotSeparatorAndIsIdempotent` | Nez.Portable/Utils/FileHelpers/FileHelpers.cs:16 | on any platform but a backslash one, no NotSeparator remains, and normalising twice equals normalising once |
| `FileHelpers.BackslashPlatformLeavesPathsAlone` | Nez.Portable/Utils/FileHelpers/FileHelpers.cs:9-12 | on a backslash platform NotSeparator equals Separator, so normalisation is the identity |
| `FileHelpers.SlashPlatformTurnsBackslashes` | Nez.Portable/Utils/FileHelpers/FileHelpers.cs:11-16 | on a '/' platform each backslash becomes '/', nothing else moves, and no backslash remains |
| `FileHelpers.MixedPathKeepsSlashOnBackslashPlatform` | Nez.Portable/Utils/FileHelpers/FileHelpers.cs:10 | on a backslash platform "a/b" is returned unchanged and keeps its '/' |
| `FileHelpers.IntendedNotSeparatorFor` | Nez.Portable/Utils/FileHelpers/FileHelpers.cs:10-12 | with ForwardSlash declared as '/': NotSeparator is a slash and never the platform's own separator |
| `FileHelpers.IntendedNormalizeFilePathSeparators` | Nez.Portable/Utils/FileHelpers/FileHelpers.cs:14-17 | same length; each intended NotSeparator becomes Separator; every other character stays in place |
| `FileHelpers.IntendedNormalizeLeavesOnlyPlatformSlash` | Nez.Portable/Utils/FileHelpers/FileHelpers.cs:10-16 | with the intended constants, on either platform the other slash never survives, and normalising twice equals normalising once |

## Left out

- `TileComponent.NewTileComponent`: the starting depth is a parameter standing for the inherited `LayerDepth`, which the constructor does not set; the base class `RenderableComponent` and its default are not part of this model.
- Drawing: `TiledRendering.RenderMap`/`RenderLayer`/`RenderTile`/`RenderObjectGroup`, `DebugRender`, and the tile component's `Render`. Only which layers `Render` selects is modelled, not rasterisation.
- The tile component's opacity-to-byte tint (`(byte)(Layer.Opacity * 255)`) and its debug log line. Both are drawing and diagnostics.
- `Update` of the renderer: it only forwards to the map's own animation step when `AutoUpdateTilesets` is set. The map's update is not part of this model.
- The renderer's `Width`/`Height` (map size times tile size). They only feed culling bounds, which are not modelled.
- Internals of `Physics.AddCollider`/`RemoveCollider`, of the collider constructors (the box's centring of its offset, the polygon's recentring of its points) and of `GetCollisionRectangles`. These are outside the renderer.
- Internals of `WorldToTilePositionX/Y`, of the collision layer's tile lookups and of `IsVisible`. These are outside the renderer and appear as parameters.
- MapRenderer.LayerIndices: assumes that `TiledMap.GetLayer` yields the first layer with the name, or null when there is none, so that `Layers.IndexOf` gives that layer's index or -1. `GetLayer` is not part of this model.
- Float rounding and 32-bit overflow of `tile.X * TileWidth`. The model computes exactly.
- `ColliderSynthesis.FirstGroupObjects`: a tileset tile whose object-group list is empty raises in `TiledMapRenderer.cs` (`ObjectGroups[0]`). The model treats it as carrying no objects.
- `ColliderLifecycle.AddColliders`: requires every collide index to be in range for the tile layers when collider creation and tileset collisions are both on. Only then does `TiledMapRenderer.cs` read the list, and an out-of-range index raises an index error there; that error is not modelled.
- `TileComponent.Update`: requires a non-zero camera height when the depth is recomputed. A zero height gives an IEEE infinity or NaN in `TiledTileComponent.cs`, which `real` cannot represent.
- `MapRenderer.NewRenderer`: only the error case of a missing collision-layer name is modelled. Other exceptions from map lookups are not.

## Findings

| source | as written | input that shows it | evidently intended | confidence | as-written member | corrected member |
|---|---|---|---|---|---|---|
| Nez.Portable/Utils/FileHelpers/FileHelpers.cs:10 | `ForwardSlash` is declared as the backslash, so on a backslash platform `NotSeparator == Separator` and `NormalizeFilePathSeparators` changes nothing | platform separator '\\', path "a/b": the result still contains '/' | `ForwardSlash = '/'`, so that a backslash platform turns '/' into '\\' | high (not executed) | `FileHelpers.MixedPathKeepsSlashOnBackslashPlatform` | `FileHelpers.IntendedNormalizeLeavesOnlyPlatformSlash` |
