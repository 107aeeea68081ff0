# Voxel renderer cores, modelled in Dafny

This project models two CPU-side cores of a voxel renderer prototype and
proves properties of them.

**The spatial hash and the visibility sweep** (`src/alternative.cpp`).
- The world is a list of axis-aligned boxes (`Entities`), each with a sprite.
- Every frame, each box that survives the view test is copied into every bin
  of a 12 x 8 x 8 grid of 40-unit bins that it overlaps, together with the
  index of its owning entity. Each bin has eight slots, and its count wraps
  with `(count + 1) & 7`.
- For every pixel of the 480 x 320 view, the sweep then walks the column of
  bins behind the pixel from near to far. It tests each stored box with a
  closed-form oblique hit test and keeps the hit with the greatest depth key.
  It writes that hit, or mid grey, into the texture.
- Also modelled: the integer Bresenham walk the debug overlay draws with,
  and the per-bin step of the light trace, which skips the starting
  entity's own boxes.

**The depth-compositor buckets** (`src/sorting.cpp`).
- A `GpuPixelBuffer` is a 75 x 120 grid of cells. Each cell holds 4 x 4
  eight-fragment buckets, one bucket per pixel of the 480 x 300 view.
- `clear` resets every bucket.
- `draw_sprite` projects a sprite's texels to the screen, clips them to the
  view and pushes one fragment per visible texel into that pixel's bucket.
- A push into a full bucket drops the fragment.

Modules, one per concern of the source:

| module | file | models |
|---|---|---|
| `Scene` | scene.dfy | points, boxes, sprites, the grid constants and `index_into_view_hash` |
| `World` | world.dfy | the `Entities` store |
| `Binning` | binning.dfy | `count_entities_in_bins`: a value model of the hash, then the in-place method over the three flat arrays |
| `Sweep` | sweep.dfy | `trace_hash_for_pixel`: the scan and march as functions, then the in-place method writing the texture |
| `Occlusion` | occlusion.dfy | the per-bin scan of `trace_hash_for_light` |
| `Lines` | lines.dfy | `draw_line` |
| `Buckets` | buckets.dfy | `Pixel` and `PixelBucket::push` |
| `PixelBuffer` | pixel_buffer.dfy | `GpuPixelBuffer` with `clear` and `draw_sprite`, over a flat array of buckets |

Behaviour of the code that a reader may not expect, and that the model
follows:
- A 40-unit cube aligned to the grid with y + z <= 240 is binned into two
  bin rows, not one (`Binning.AlignedCubeSpan`). Bin rows are taken from the
  oblique height y + z (src/alternative.cpp:223-225, 231-236), and the cube's
  y + z runs over 80 units, its 40 of height plus its 40 of depth. Nearer the
  top of the view the rows are clipped (`Binning.AlignedCubeNearTop`): the
  cube at (0, 280, 0) gets the single row 0, and one with y + z >= 320, such
  as the cube at (0, 160, 160), gets no row at all.
- The sweep's bin row is `j / 40` at every depth layer. As the comment at
  src/alternative.cpp:284-286 says, the hash already stores boxes by their
  oblique row, so the row is not shifted by the depth.
- The comment at src/alternative.cpp:370-371 speaks of a ray that "has
  intersected two adjacent bins". The counter the code keeps counts bins
  whose scan produced a new best hit (src/alternative.cpp:365-368). It resets
  only at an EMPTY bin (src/alternative.cpp:298-300), not at a bin whose
  boxes all miss. So the two bins need not be adjacent: hit bins separated
  by non-empty bins with no new best hit also stop the march.
- The best depth key is one running value for the whole march
  (src/alternative.cpp:289, 344). A hit whose key only equals the best so
  far is dropped, so on equal keys the nearer bin's hit wins
  (`Sweep.PixelIsDeepestHit`).
- A bin's eighth insertion wraps its count to 0. This does not overwrite the
  oldest entry: the bin then reads as empty, and later boxes reuse its slots
  from slot 0 (`Binning.ScatterAllLive`).
- `PixelBucket::push` saturates: a full bucket drops the fragment and never
  writes outside its eight slots.

## Model

| member | source | states |
|---|---|---|
| Scene.PointEquals | src/alternative.cpp:16-18 | point equality holds exactly when all three coordinates agree |
| Scene.GridFitsView | src/alternative.cpp:116-123 | the 12 x 8 x 8 grid of 40-unit bins tiles the 480 x 320 x 320 view exactly, and the hash volume is the product of the three grid sizes |
| Scene.IndexIntoViewHash | src/alternative.cpp:180-182 | every bin of the grid gets an index in [0, hash_volume) |
| Scene.IndexDecodes | src/alternative.cpp:180-182 | x, y and z are recovered from a bin's index by division and remainder |
| Scene.IndexInjective | src/alternative.cpp:180-182 | distinct bins of the grid get distinct indices |
| Scene.IndexOnto | src/alternative.cpp:180-182 | every index in [0, hash_volume) is the index of some bin of the grid |
| World.Entities.constructor | src/alternative.cpp:93-113 | a new store is empty, with entity count 0 |
| World.Entities.Insert | src/alternative.cpp:105-109 | appends the entity's box and the shared floor-tile sprite, and the entity count goes up by one |
| World.Entities.Size | src/alternative.cpp:111-113 | the entity count equals the number of stored boxes and sprites |
| Binning.TruncDivRounds | src/alternative.cpp:222-245 | C++ division by the bin size rounds toward zero: down for non-negative values, up for negative ones, and it is odd in its argument |
| Binning.BinSpan | src/alternative.cpp:222-245 | the clamped min and max bin indices of a box lie inside the grid on all three axes |
| Binning.AlignedCubeSpan | src/alternative.cpp:222-245 | a grid-aligned 40-unit cube with y + z <= 240 spans one bin in x and in z, and two bin rows in y |
| Binning.AlignedCubeNearTop | src/alternative.cpp:222-245 | a grid-aligned 40-unit cube with y + z == 280 gets only bin row 0, and one with y + z >= 320 gets an empty row range |
| Binning.Placement | src/alternative.cpp:212-245 | a box that passes the view test is placed over a span that lies inside the grid |
| Binning.ViewSpan | src/alternative.cpp:203-245 | the view test keeps a box exactly when it is not culled, and a kept box gets its clamped span |
| Binning.ScatterNone | src/alternative.cpp:212-219 | binning an entity with no placement (a culled one) changes no bin at all |
| Binning.CulledNeverListed | src/alternative.cpp:212-219 | a culled entity is never among the entities binned into any bin |
| Binning.ScatterOneEffect | src/alternative.cpp:248-266 | binning one entity pushes it exactly once into every bin its span covers, and leaves every other bin unchanged |
| Binning.FillXScatters | src/alternative.cpp:248-266 | the three nested bin loops over a span act exactly as one push into each bin of the span |
| Binning.CoveringList | src/alternative.cpp:198-266 | lists the entities binned into a given bin, each below the current entity and covering the bin |
| Binning.CoveringListIncreasing | src/alternative.cpp:198-266 | the entities binned into one bin arrive in increasing entity order |
| Binning.CoveringListComplete | src/alternative.cpp:198-266 | every entity whose placement covers a bin is among that bin's entities |
| Binning.ScatterAllBin | src/alternative.cpp:198-266 | binning all entities acts on each bin independently, as that bin's own history of pushes |
| Binning.BinHistoryCount | src/alternative.cpp:262-264 | a bin's count is its starting count plus the number of entities binned into it, modulo 8 |
| Binning.LiveSlotsPush | src/alternative.cpp:252-264 | one push appends the entity to the bin's live slots, or empties them on the eighth push |
| Binning.BinHistoryLive | src/alternative.cpp:198-266 | from an empty bin, the live slots hold the most recent (count mod 8) entities binned into it, in order, each slot holding that entity's box |
| Binning.ScatterAllLive | src/alternative.cpp:198-266 | after a rebuild from cleared counts, every bin's live slots hold the last (n mod 8) entities binned into it, each with its own box |
| Binning.UnflattenInjective | src/alternative.cpp:252-264 | the bins determine the three flat arrays: every slot belongs to exactly one bin |
| Binning.UnflattenInsert | src/alternative.cpp:252-264 | the three writes of one insertion (owner and box to slot bin*8+count, then the wrapped count) push into that bin, keep counts in [0,8) and change no other bin |
| Binning.PushIntoBin | src/alternative.cpp:252-264 | the in-place insertion leaves the arrays equal to the value-model push into that one bin |
| Binning.BinRun | src/alternative.cpp:250-265 | the z loop pushes the box into every bin of the run and into nothing else |
| Binning.BinColumn | src/alternative.cpp:249-266 | the y and z loops push the box into every bin of the column span and into nothing else |
| Binning.BinSpanOf | src/alternative.cpp:248-266 | the three bin loops push the box into every bin of its span and into nothing else |
| Binning.CountEntitiesInBins | src/alternative.cpp:195-268 | after the rebuild, the flat arrays hold exactly the value-model hash that results from binning every entity in order |
| Sweep.TexelInRange | src/alternative.cpp:310-332 | a hit always reads a texel that exists in the sprite |
| Sweep.Candidates | src/alternative.cpp:297-305 | a bin offers one candidate per live slot |
| Sweep.Scan | src/alternative.cpp:303-347 | scanning never lowers the best depth key |
| Sweep.ScanKeepsDeepest | src/alternative.cpp:336-347 | the scan's result is the hit with the greatest key, and on ties the first such hit wins; with no hit above the starting key, the starting state is kept |
| Sweep.ScanNoHit | src/alternative.cpp:303-317 | with no hit in the bin, the scan changes nothing |
| Sweep.March | src/alternative.cpp:292-375 | marching never lowers the best depth key |
| Sweep.MarchNoDeeper | src/alternative.cpp:292-375 | no hit in any bin the march visits has a greater key than the march's result |
| Sweep.MarchWitness | src/alternative.cpp:289-375 | the march's result is the starting state, or else the hit of some slot of some visited bin; that hit is the first with the result's key, since every hit in an earlier bin or an earlier slot has a strictly smaller key |
| Sweep.MarchStopsAfterHit | src/alternative.cpp:292-374 | the march stops early only right after a bin whose scan found a new best hit, and the result is that bin's hit; from a zero count it never stops at the first bin |
| Sweep.MarchNoHit | src/alternative.cpp:292-375 | a column with no hit is marched to the far end and left at the starting state |
| Sweep.PixelIsDeepestHit | src/alternative.cpp:277-379 | each pixel is the deepest hit among the bins its march visits, the hit of a real slot in one of the bins the march visited, or background grey when there is none; on equal keys the hit in the nearer bin, and within a bin the earlier slot, wins |
| Sweep.PixelNoHit | src/alternative.cpp:281-379 | a pixel whose bin column holds no box its ray hits is background grey |
| Sweep.TexIndexDecodes | src/alternative.cpp:379 | a pixel's texture entry lies in the texture, and its row and column are the pixel's |
| Sweep.TexIndexDistinct | src/alternative.cpp:379 | distinct pixels write distinct texture entries |
| Sweep.TexIndexOnto | src/alternative.cpp:379 | every texture entry belongs to some pixel |
| Sweep.ColumnBin | src/alternative.cpp:287-296 | the bin looked up for a pixel at any depth layer is inside the hash |
| Sweep.ColumnIsColumnOf | src/alternative.cpp:292-305 | the bin column behind a pixel holds, layer by layer, the candidates of that pixel's bins |
| Sweep.TestSlot | src/alternative.cpp:304-363 | the hit test, texel lookup, depth key and pixel of one slot equal that slot's candidate |
| Sweep.ScanBin | src/alternative.cpp:293-368 | the slot loop computes the scan of the bin, and has_intersected is set exactly when the best key went up |
| Sweep.MarchRay | src/alternative.cpp:280-375 | the depth loop, with its reset at empty bins and its early stop, returns the march's pixel |
| Sweep.TraceColumn | src/alternative.cpp:279-383 | one pixel column of the texture is set to each pixel's march result, and every other column is unchanged |
| Sweep.TraceHashForPixel | src/alternative.cpp:271-384 | every texture entry j*480+i holds the march result of pixel (i, j) |
| Occlusion.FirstOccluderIsFirst | src/alternative.cpp:480-492 | the scan reports the first slot whose box belongs to another entity and intersects the ray; no report means no such slot exists |
| Occlusion.SelfNeverOccludes | src/alternative.cpp:483-487 | boxes of the starting entity never affect the scan: tests that differ only on them give the same result |
| Occlusion.BinLetsLightThrough | src/alternative.cpp:476-492 | the bin is reported clear exactly when no other entity's box in it intersects the ray |
| Lines.Abs | src/alternative.cpp:142-143 | the absolute value is non-negative and equals the value or its negation |
| Lines.Toward | src/alternative.cpp:148-149 | the step sign is plus or minus one, and plus one exactly when the start is below the end |
| Lines.AxesFinishTogether | src/alternative.cpp:158-171 | with the walk's error term, the step rule never asks to move along an axis that has already reached its end |
| Lines.DrawLine | src/alternative.cpp:140-175 | the callback sees the start point first and the end point last; every pixel lies in the box of the two; each step moves x and y by at most one unit toward the end, and at least one of them moves; the loop terminates |
| Buckets.Pushed | src/sorting.cpp:19-27 | a push keeps the bucket valid, so its size never exceeds 8 |
| Buckets.PushStores | src/sorting.cpp:20-24 | a push into a bucket with room stores the pixel at the old size, adds one to the size and keeps the earlier slots |
| Buckets.PushFullIsNoop | src/sorting.cpp:20 | a push into a full bucket changes nothing |
| Buckets.PushedAllKeepsFirst | src/sorting.cpp:19-27 | a run of pushes keeps the bucket's earlier fragments, fills the free slots with the first fragments of the run in order, and stops at 8 |
| PixelBuffer.BucketIndex | src/sorting.cpp:73-86 | every cell row, cell column and in-cell position of the 75 x 120 x 4 x 4 grid gives an in-range flat position |
| PixelBuffer.BucketOf | src/sorting.cpp:66-86 | for every position of the 480 x 300 view (its sizes are in src/shared_behavior.hpp:41-42), all four indices of the target bucket are in range |
| PixelBuffer.BucketOfDecodes | src/sorting.cpp:73-86 | a view position is recovered from its bucket |
| PixelBuffer.BucketOfDistinct | src/sorting.cpp:73-86 | distinct view positions use distinct buckets |
| PixelBuffer.BucketOfOnto | src/sorting.cpp:73-86 | every bucket is the bucket of some view position |
| PixelBuffer.Cleared | src/sorting.cpp:47-54 | a cleared bucket has size 0, and each of its fragments has palette index 0, depth (0, 0) and its old normal |
| PixelBuffer.TexelInAtlas | src/sorting.cpp:76-82 | every texel of a sprite the atlas holds is read from inside the atlas |
| PixelBuffer.DrawnBuckets | src/sorting.cpp:62-99 | after drawing, each bucket the sprite covers has that texel's fragment pushed, and every bucket outside the clipped footprint is unchanged |
| PixelBuffer.TexelFragment | src/sorting.cpp:76-97 | the fragment copies the normal and palette index of texel atlas_index*w*h + j*w + i, with its depth moved by (-world_y, -world_z) |
| PixelBuffer.GpuPixelBuffer.constructor | src/sorting.cpp:13-38 | a fresh buffer holds 144000 valid buckets, all of size 0 |
| PixelBuffer.GpuPixelBuffer.Push | src/sorting.cpp:19-27 | the in-place push into one bucket is the value-model push, and every other bucket is unchanged |
| PixelBuffer.GpuPixelBuffer.ClearBucket | src/sorting.cpp:47-55 | one bucket is cleared in place, and every other bucket is unchanged |
| PixelBuffer.GpuPixelBuffer.Clear | src/sorting.cpp:42-60 | every bucket of every cell is cleared |
| PixelBuffer.GpuPixelBuffer.DrawSprite | src/sorting.cpp:62-99 | at every view position, the bucket is the old one with the covering texel's fragment pushed when the clipped sprite covers it, and untouched otherwise |

## Left out

- `AABB::intersect` (src/alternative.cpp:40-83) is a floating-point slab test. The occlusion scan takes it as a parameter: any pure test of a box against the light ray.
- The rest of `trace_hash_for_light` is not modelled: its floating-point walk from bin to bin (src/alternative.cpp:406-473) and its skip of the starting bin. Only the per-bin scan is.
- `world_to_view_hash_index` (src/alternative.cpp:184-189) is unused, and it clamps against the view sizes rather than the grid sizes, so no bound holds for it. It is not part of this model.
- The two `main` functions are not modelled. They hold the SDL and Vulkan plumbing, the floating-point shading, the world generation, the input handling and the mouse-debug globals (src/alternative.cpp:380-382 included).
- `src/reference.cpp`, `main.cpp` at the repository root and `get_run_path` are graphics setup and OS path I/O. They are not part of this model.
- `Sprite`, `SpriteAtlas`, the sweep's `Pixel`, `color_palette` and the floor tile come from headers that are not part of this model. They are records of sequences here. Float fields (normals) are only copied, never computed.
- Binning.CountEntitiesInBins: the box fields are 16-bit `short` (`Scene.Short`); the `int` sums of them are unbounded here, and they cannot overflow a 32-bit `int` in the source either.
- Lines.DrawLine: `std::abs`, `2 * error` and the coordinate steps are unbounded here. The source overflows 32-bit `int` for end points more than about 2^30 apart.
- PixelBuffer.TexelFragment: the depth subtractions are unbounded here rather than 32-bit.
- Lines.DrawLine: the pixel callback and its extra argument are modelled by the sequence of points it is called with, in order.
- PixelBuffer.GpuPixelBuffer.DrawSprite requires the whole sprite to lie inside the atlas, and a non-negative atlas index and sprite size. The source reads the atlas unchecked.
- Sweep.TraceHashForPixel requires three things of the bins, because the source indexes its arrays unchecked: every live slot names an entity that has a sprite, that sprite has a texel for every point of the box's face, and its palette indices are valid.
- Binning.CountEntitiesInBins requires every bin count to be in [0, 8) on entry. Zero-initialized counts meet this.
- The cells are stored in one flat array of 144000 buckets, in the source's row-major order, not as nested C++ arrays. A bucket is a value in that array, so a push replaces the whole bucket.
- `point_lights` in `GpuPixelBuffer` is never read by `clear` or `draw_sprite`. It is not part of this model.
