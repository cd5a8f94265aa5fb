# Dreamcast client core: vertex batcher, textures, input sampler, kill feed

This project models four pieces of the Dreamcast (PowerVR) port of the game client.

- **Graphics device** (`CGraphics_PVR`):
  - The vertex batcher collects vertices and submits them as one draw call once the next group might overrun the vertex array.
  - The begin/end scope machine allows lines or quads, but never both.
  - The emitters turn quads, freeform quads, lines and text into vertices with the current colours and texture coordinates.
  - The clip rectangle is converted to a scissor box.
  - The texture slot table keeps a free list threaded through the slots and a running total of texture memory.
  - The box-filter resampler shrinks images before upload.
- **Input sampler** (`CInput`):
  - It keeps two key tables, one being dispatched while the other is filled.
  - A bounded event queue holds the frame's events.
  - Keyboard scan codes are translated to engine key numbers, and keyboard and mouse edges are turned into events.
  - It detects double clicks and answers the one-shot video-restart query.
- **Kill feed** (`CKillMessages`): a ring of the last five kill messages, shown oldest first while they are recent.

The model uses only pure functions over immutable data:
- An operation that ends the process through a debug assertion returns `Base.Failed`.
- Devices, the clock and the file system become parameters.
- The function-level statics of the engine become fields of the state: `prevState` of the keyboard handler becomes `Input.prevMatrix`, and `oldBtns` of the mouse handler becomes `Input.oldButtons`.

Four kinds of results are proved:
- scope discipline (each operation succeeds exactly in the scope it belongs to);
- exact placement of every emitted vertex, and for text the vertex stream each string produces, glyph by glyph, across intermediate flushes;
- the batch accounting (every vertex handed in is submitted or still pending);
- invariants of the texture free list, properties of the resampler, the key map's round trip, the event queue's keep-the-oldest behaviour, and the kill feed's queue behaviour.

Paths below are relative to the repository root.

## Model

| member | source | states |
|---|---|---|
| Batcher.Flush | src/engine/client/graphics.cpp:27-60 | An empty batch is left as it is. Otherwise the pending vertices are submitted as one draw call when rendering is enabled and dropped when it is not. The count returns to 0 either way, and no accepted vertex is lost: the submitted vertices followed by the pending ones are the same sequence before and after. |
| Batcher.AddVertices | src/engine/client/graphics.cpp:62-67 | Flushes exactly when the count plus twice the group reaches the array size. Afterwards either the batch is empty or the next group of the same size still fits. The accepted total grows by the group size. |
| Batcher.Write | src/engine/client/graphics.cpp:234-247 | Stores vertices at consecutive slots from a position and leaves every other slot, the count and the submissions alone. |
| Batcher.Pending | src/engine/client/graphics.cpp:36-53 | The vertices a flush submits are exactly the first `count` slots, in order. |
| Batcher.AcceptedAddsUp | src/engine/client/graphics.cpp:27-67 | Over any run of groups, submitted plus pending vertices grow by exactly the sum of the group sizes. |
| Batcher.AddAllExtends | src/engine/client/graphics.cpp:27-67 | Adding groups only appends draw calls; earlier submissions are never changed. |
| Batcher.SameSizeGroupsFit | src/engine/client/graphics.cpp:62-67 | With groups of one size, no submitted draw call ever holds more vertices than the array, and room for the next group always remains. |
| Batcher.LargerGroupOverruns | src/engine/client/graphics.cpp:62-67 | The flush test only looks ahead by the size of the current group, so a larger group after a smaller one can pass the end of the array. |
| Graphics.Create | src/engine/client/graphics.cpp:120-140 | A new device is outside any scope, with no rotation and an empty, enabled batch. |
| Graphics.TextureSet | src/engine/client/graphics.cpp:416-429 | Succeeds exactly outside a scope and then changes only the bound texture. |
| Graphics.LinesBegin | src/engine/client/graphics.cpp:214-219 | Succeeds exactly outside a scope. It enters the lines scope with all four corner colours white. |
| Graphics.LinesEnd | src/engine/client/graphics.cpp:221-226 | Succeeds exactly in the lines scope. It leaves the scope, flushes the batch and changes nothing else. |
| Graphics.QuadsBegin | src/engine/client/graphics.cpp:439-447 | Succeeds exactly outside a scope. It enters the quads scope with rotation 0, white corners and the full texture. Everything else, the batch, the bound texture and the triangle mode included, is left alone. |
| Graphics.QuadsEnd | src/engine/client/graphics.cpp:449-454 | Succeeds exactly in the quads scope. It leaves the scope, flushes the batch and changes nothing else. |
| Graphics.QuadsSetRotation | src/engine/client/graphics.cpp:456-460 | Succeeds exactly in the quads scope and then changes only the rotation. |
| Graphics.SetColorVertex | src/engine/client/graphics.cpp:462-473 | Succeeds exactly inside a scope. Each corner gets the colour of the last entry naming it, and keeps its colour if no entry names it. |
| Graphics.ApplyColorsLastWins | src/engine/client/graphics.cpp:466-472 | Applying the entries one after another leaves each corner with the last colour written to it. |
| Graphics.SetColor | src/engine/client/graphics.cpp:475-484 | Succeeds exactly inside a scope and paints all four corners with the colour. |
| Graphics.AllCornersPaint | src/engine/client/graphics.cpp:478-483 | The four entries `SetColor` builds assign the colour to every corner. |
| Graphics.QuadsSetSubset | src/engine/client/graphics.cpp:486-495 | Succeeds exactly in the quads scope. The four texture coordinates then span the given rectangle in corner order, and nothing else changes. |
| Graphics.QuadsSetSubsetFree | src/engine/client/graphics.cpp:497-505 | Sets the four texture coordinates to the given ones and changes nothing else. |
| Graphics.QuadsDrawTL | src/engine/client/graphics.cpp:518-607 | Succeeds exactly in the quads scope. For each quad, its corners land at consecutive slots: as two triangles (0,1,2 and 0,2,3) or as one quad. The batch grows by the vertex count per quad times the number of quads. |
| Graphics.QuadsDrawTLFrame | src/engine/client/graphics.cpp:518-607 | Slots outside the written range keep their vertices. |
| Graphics.QuadsDrawTLAt | src/engine/client/graphics.cpp:518-607 | The vertex at position `j` of quad `i` is that quad's corner in the emission order. |
| Graphics.ZeroRotationKeepsCorners | src/engine/client/graphics.cpp:518-607 | With rotation 0 every emitted vertex sits at its quad's own corner. |
| Graphics.QuadsDraw | src/engine/client/graphics.cpp:507-516 | Succeeds exactly in the quads scope and accounts for every quad's vertices like `QuadsDrawTL`. |
| Graphics.QuadsDrawTopLeft | src/engine/client/graphics.cpp:507-516 | A centred quad's first vertex lies half a width and half a height before its centre. |
| Graphics.QuadsDrawBottomRight | src/engine/client/graphics.cpp:507-516 | A centred quad's third vertex lies half a width and half a height past its centre. |
| Graphics.CenteredSpan | src/engine/client/graphics.cpp:511-512 | Recentring a quad moves its corners half its size back, so it spans its centre symmetrically. |
| Graphics.QuadsDrawFreeform | src/engine/client/graphics.cpp:609-677 | Succeeds exactly in the quads scope. Each freeform quad's four points land in the order 0,1,3 / 0,3,2 (or 0,1,3,2 as one quad), and the batch accounting matches. |
| Graphics.QuadsDrawFreeformFrame | src/engine/client/graphics.cpp:609-677 | Slots outside the written range keep their vertices. |
| Graphics.FreeformIgnoresRotation | src/engine/client/graphics.cpp:609-677 | The current rotation has no effect on what a freeform quad writes. |
| Graphics.LinesDraw | src/engine/client/graphics.cpp:228-251 | Succeeds exactly in the lines scope. Line `i` writes its start, its end and its end again at three consecutive slots from `3*i`, nothing else changes, and the batch grows by three per line. |
| Graphics.LinesDrawAsWritten | src/engine/client/graphics.cpp:228-251 | Succeeds exactly in the lines scope. Slot `2*i` holds line `i`'s start and slot `2*i+1` its end; one slot past the last start holds the last line's end again. No other slot changes, yet the batch grows by three per line. |
| Graphics.WriteLinesStride2Slots | src/engine/client/graphics.cpp:232-248 | The engine's stride-2 writes leave each line's start and end at `2*i` and `2*i+1`, and the last line's repeated end at `2*Num`, and touch nothing else. |
| Graphics.LinesStrideLosesVertices | src/engine/client/graphics.cpp:234-250 | With two lines, the engine's stride overwrites the first line's repeated end with the second line's start and never writes the sixth slot. |
| Graphics.LinesStrideAgreesOnOneLine | src/engine/client/graphics.cpp:228-251 | With a single line the engine's stride and three slots per line agree. |
| Graphics.TextLayout | src/engine/client/graphics.cpp:679-706 | The text walk puts glyph `i` at half the size times its column and the size times its line, counting from the last newline. |
| Graphics.TextGlyphsCount | src/engine/client/graphics.cpp:683-705 | Every character except a newline draws one glyph of the given size, and newlines draw none. |
| Graphics.GlyphCell | src/engine/client/graphics.cpp:695-699 | A character code picks cell (code mod 16, code div 16) of the font sheet, with C's signed division. For codes 0-127 the cell is inside the sheet's first eight rows and gives back the code. For a negative `char` (-128 to -1) the column is in -15..0 and the row in -8..0, not both 0, so the cell lies off the sheet. |
| Graphics.DrawGlyph | src/engine/client/graphics.cpp:695-702 | Succeeds exactly in the quads scope. It selects the glyph's cell as the texture subset and draws one quad: vertex `j` is corner `QuadOrder[j]` of the glyph's square, textured with its cell, and the vertex stream grows by exactly that quad. |
| Graphics.DrawGlyphs | src/engine/client/graphics.cpp:683-705 | Succeeds exactly when there is nothing to draw or the quads scope is open. Each glyph adds one quad, and the last glyph's cell stays selected. |
| Graphics.GlyphGroupsLook | src/engine/client/graphics.cpp:695-702 | A glyph's quad depends only on the colours, rotation and triangle mode, not on the batch or the texture subset left by earlier glyphs. |
| Graphics.DrawGlyphsStream | src/engine/client/graphics.cpp:683-705 | The device receives the glyphs' quads one after another, each textured with its own cell, whatever flushes happen in between. |
| Graphics.GlyphVertexAt | src/engine/client/graphics.cpp:695-702 | In the glyphs' vertex stream, vertex `j` of glyph `k` is at `PerQuad*k + j` and is corner `QuadOrder[j]` of that glyph's square with its cell's texture. |
| Graphics.QuadsText | src/engine/client/graphics.cpp:679-706 | Succeeds exactly when the text has no glyph to draw or the quads scope is open. It adds one quad per non-newline character and keeps the scope, rotation and colours. |
| Graphics.QuadsTextStream | src/engine/client/graphics.cpp:679-706 | The stream grows by one quad per non-newline character, in order. Each quad sits at the square its line and column give and carries that character's atlas cell. |
| Graphics.SingleLineLayout | src/engine/client/graphics.cpp:683-703 | Without newlines, character `i` is drawn at `x + i*Size/2` on the starting row, one glyph per character. |
| Graphics.LayoutWithoutNewlines | src/engine/client/graphics.cpp:683-703 | Without newlines, every character from position `i` on draws exactly one glyph, in order. |
| Graphics.NoNewlinePrefix | src/engine/client/graphics.cpp:688-692 | Without newlines, the first `i` characters end in column `i` of line 0. |
| Clip.Clamp | src/engine/client/graphics.cpp:149-152 | The result lies in the range, equals the value when the value is inside it, and is the nearer end otherwise. |
| Clip.ClipRect | src/engine/client/graphics.cpp:144-152 | The requested rectangle, with its width and height shortened by whatever lies left of or above the screen, then clamped, lies inside the screen. |
| Clip.ClipEnable | src/engine/client/graphics.cpp:142-156 | The scissor box lies inside the screen in the device's bottom-up coordinates. |
| Clip.ClipIsIntersection | src/engine/client/graphics.cpp:142-156 | A screen point is in the clipped rectangle if and only if it is in both the request and the screen, column by column and row by row. |
| Clip.ClipIdempotent | src/engine/client/graphics.cpp:144-152 | Clipping an already clipped rectangle changes nothing. |
| Clip.OffCornerRequest | src/engine/client/graphics.cpp:142-156 | A request hanging off the top-left corner of a 640 by 480 screen gives the expected bottom-up scissor box. |
| Rescale.Sample | src/engine/client/graphics.cpp:85-92 | The sampled value is the truncated mean of the block of source bytes for that channel, so it is a byte. |
| Rescale.MeanIsByte | src/engine/client/graphics.cpp:85-92 | The mean of byte values over a non-empty block is a byte. |
| Rescale.Rescale | src/engine/client/graphics.cpp:94-118 | The output has width × height × channels bytes. Each output byte is the mean of its source block of `width/newWidth` × `height/newHeight` pixels for that channel. Byte input gives byte output. |
| Rescale.BlocksInside | src/engine/client/graphics.cpp:97-114 | Every block an output pixel reads lies inside the source image. |
| Rescale.UniformStaysUniform | src/engine/client/graphics.cpp:94-118 | An image of one value resamples to the same value everywhere. |
| Textures.InitTable | src/engine/client/graphics.cpp:720-724 | Threading the list through all slots gives a valid table: every slot free, in index order, and no memory in use. |
| Textures.PixelSize | src/engine/client/graphics.cpp:309-313 | Stored texels take 3 bytes for RGB, 1 for alpha and 4 otherwise. |
| Textures.DeviceFormat | src/engine/client/graphics.cpp:315-319 | The upload format is never `Auto`, and a definite format is kept. |
| Textures.FitSize | src/engine/client/graphics.cpp:290-299 | An oversized image is reduced so that its longer side becomes the device maximum. Each side becomes the largest `n` with `n * longest <= side * 256`, which is the side scaled by the same ratio and truncated, or 1 when that would be 0. Both sides stay at least 1 and never grow. |
| Textures.ResampleSize | src/engine/client/graphics.cpp:288-307 | No resampling leaves the size. An oversized colour image is reduced by Textures.FitSize: the longer side becomes 256 and the other is scaled by the same ratio. At texture quality 0, colour images over 16 pixels both ways are halved. The result is never larger, and a side of at least 1 stays at least 1. Images with an empty side are accepted unless they would be reduced. |
| Textures.ScaledSide | src/engine/client/graphics.cpp:290-299 | One side scaled to the device maximum over the longer side is the floor of the exact ratio, at least 1, and exactly 1 when the exact ratio is below 1. |
| Textures.FitSizeAsWritten | src/engine/client/graphics.cpp:290-299 | The engine clamps only the width to 256. The height becomes the height times the new width over the old width, truncated. |
| Textures.TallTextureNotReduced | src/engine/client/graphics.cpp:290-299 | A 128 × 512 image passes the oversize test but the engine keeps it at 128 × 512. |
| Textures.FlatTextureLosesHeight | src/engine/client/graphics.cpp:290-299 | A 1024 × 3 image is reduced by the engine to height 0. |
| Textures.FitSizeAgreesWhenWide | src/engine/client/graphics.cpp:290-299 | When the width is the longer side and the scaled height is at least 1, the engine's reduction and the corrected one agree. |
| Textures.LoadTextureRaw | src/engine/client/graphics.cpp:272-337 | Under `dbg_stress` it returns the invalid texture and changes nothing. Otherwise it takes the head of the free list, uploads the resampled image in the device format, and records its size in the slot and in the total. |
| Textures.UnloadTexture | src/engine/client/graphics.cpp:253-265 | The invalid texture and negative indices are ignored. Any other slot is pushed on the free list and its size leaves the total. |
| Textures.EmptyImageLoads | src/engine/client/graphics.cpp:288-335 | An image with no columns and at most 256 rows is not resampled: it takes the first free slot, is uploaded as it is and adds no bytes to the slot or the total. |
| Textures.LoadKeepsValid | src/engine/client/graphics.cpp:284-286 | Loading pops the first free slot and keeps the table valid: an exact free list, and a total equal to the sizes of the slots in use. |
| Textures.UnloadKeepsValid | src/engine/client/graphics.cpp:253-265 | Unloading a slot in use pushes it on the free list and keeps the table valid. |
| Textures.AllocatedBytesChange | src/engine/client/graphics.cpp:331-335 | Changing one slot changes the in-use total by that slot's difference alone. |
| Textures.DoubleUnloadAliases | src/engine/client/graphics.cpp:253-265 | Unloading one slot twice makes it link to itself, so the next two loads both hand out that slot. |
| Textures.Init | src/engine/client/graphics.cpp:708-750 | After `Init` the null texture occupies slot 0 as the invalid texture and takes 64 bytes, and the other slots are free in order. Under `dbg_stress` nothing is loaded. |
| Textures.DecodePng | src/engine/client/graphics.cpp:363-409 | Only 8-bit truecolor images, with or without alpha, decode, as RGB or RGBA respectively, with their size and pixels kept. |
| Textures.LoadTexture | src/engine/client/graphics.cpp:340-361 | Names shorter than 3 characters, files that fail to open or decode, and `dbg_stress` give the invalid texture and change nothing. Otherwise it loads raw at the resample size, in the image's own format when the store format is `Auto`. |
| Textures.LoadTextureKeepsValid | src/engine/client/graphics.cpp:272-361 | Loading a file either gives the invalid texture and leaves the table as it was, or takes the first free slot and keeps the table valid. |
| KeyMap.MapKey | src/engine/client/input.cpp:48-98 | Letters, digits 1-9 then 0, F1-F12 and keypad 1-9 translate by offset into the engine's numbering; the listed codes map one by one; anything else is unknown. Every key number is inside the key table. |
| KeyMap.MapKeyAsWritten | src/engine/client/input.cpp:48-98 | The engine's digit test runs from the 0 key's code up to the 9 key's, an empty range. Off the digit row the engine's translation agrees with the corrected one. |
| KeyMap.DigitsUnmapped | src/engine/client/input.cpp:51 | With that test, every top-row digit key is unknown. |
| KeyMap.MapKeyRoundTrip | src/engine/client/input.cpp:48-98 | Every scan code that translates can be recovered from its key number. |
| KeyMap.MapKeyInjective | src/engine/client/input.cpp:48-98 | Two scan codes never translate to the same known key. |
| Input.Create | src/engine/client/input.cpp:206-221 | Both tables are zero; there are no events, no grab, no dispatch and no pending restart; the release delta is -1. |
| Input.AddEvent | src/engine/client/input.cpp:37-46 | An event is appended while the queue has room and is dropped when the queue is full. |
| Input.AddEventsKeepsOldest | src/engine/client/input.cpp:37-46 | Adding any run of events keeps the oldest ones: the queue becomes the first 32 of the old queue followed by the new events. |
| Input.HandleKeyboard | src/engine/client/input.cpp:100-143 | The last typed character, unless it is 0, is queued as a press of the unknown key. Every translated scan code whose state changed to 0 or 1 counts a press, sets the key down on a press and queues its event, in scan order. The matrix is remembered for the next poll. Nothing else in the input state changes: apart from the tables, the queue and the previous matrix, the result equals the input. |
| Input.Edge | src/engine/client/input.cpp:118-132 | A scan code gives a release exactly when it changed to 0, a press exactly when it changed to 1, and nothing when it is unchanged or does not translate. |
| Input.AddEventsAppend | src/engine/client/input.cpp:37-46 | Queueing two runs one after the other is the same as queueing them together. |
| Input.ButtonKey | src/engine/client/input.cpp:159-172 | Side has priority over right, and right over left. The key is `-1` exactly when none of the three buttons is in the set. |
| Input.WheelKey | src/engine/client/input.cpp:193-201 | Positive motion is wheel down and negative is wheel up; no motion gives no key. |
| Input.HandleMouse | src/engine/client/input.cpp:145-204 | Held buttons are set down. At most one newly pressed, one newly released and one wheel key each count one press and queue one event, in that order. A left release records the time since the previous one. The buttons are remembered. Apart from the tables, the queue, the previous buttons and the release timing, the result equals the input. |
| Input.MouseSink | src/engine/client/input.cpp:155-201 | The press counts, the key states and the event queue change exactly by the held, pressed, released and wheel keys. |
| Input.SimultaneousPressCountsOne | src/engine/client/input.cpp:159-172 | Pressing left and right in the same poll counts only the right button. |
| Input.MouseDoubleClick | src/engine/client/input.cpp:268-277 | Reports a double click exactly when the last release delta is under a third of the clock frequency, and then forgets it. |
| Input.DoubleClickOnce | src/engine/client/input.cpp:268-277 | A double click is reported once: asking again at once says no. |
| Input.TwoReleasesMakeDoubleClick | src/engine/client/input.cpp:174-191 | Two left clicks whose releases are `gap` ticks apart make a double click if and only if the gap is under a third of the clock frequency. |
| Input.ClearKeyStates | src/engine/client/input.cpp:279-283 | Both tables become zero and nothing else changes. |
| Input.KeyState | src/engine/client/input.cpp:285-288 | Reads the key's state in the current table. |
| Input.VideoRestartNeeded | src/engine/client/input.cpp:463-471 | Answers 1 exactly when a restart is pending and clears the flag. |
| Input.VideoRestartOnce | src/engine/client/input.cpp:463-471 | A pending restart is reported once. |
| Input.Swap | src/engine/client/input.cpp:298-305 | After a dispatch, the other table becomes current and is zeroed. Without a dispatch nothing changes. |
| Input.Update | src/engine/client/input.cpp:290-461 | The grab is released when the window is inactive. A dispatched frame moves to the zeroed other table. The mouse and keyboard are then polled into the current table only, and the answer is 0. |
| Input.PollDevices | src/engine/client/input.cpp:345-359 | After a poll the previous key matrix is the keyboard's matrix and the previous buttons are the mouse's buttons, when those devices are present; otherwise they are kept. Without a mouse the release timing is kept. |
| Input.Poll | src/engine/client/input.cpp:345-359 | Polling changes only the current table, the queue and the device fields: the previous key matrix, the previous buttons and the release timing. The grab, the dispatch table index and a pending video restart are kept, and queued events are only added to. Without devices nothing changes. |
| Input.DispatchClearsCurrent | src/engine/client/input.cpp:298-305 | After a dispatch every key reads as up until the next poll. |
| KillMessages.OnReset | src/game/client/components/killmessages.cpp:15-20 | The newest slot becomes 0 and every slot's tick becomes -100000; payloads stay as they were. |
| KillMessages.OnMessage | src/game/client/components/killmessages.cpp:22-50 | Any other message leaves the feed alone. A kill message moves the newest slot one on, round the ring, and stores the payload there with the game tick; no other slot changes. |
| KillMessages.VisitOrderIsPermutation | src/game/client/components/killmessages.cpp:66-68 | The render loop visits every slot exactly once, from the oldest (after the newest) to the newest. |
| KillMessages.OnMessageShifts | src/game/client/components/killmessages.cpp:47-48 | Seen in visit order, a kill message drops the oldest entry and appends the new one: the ring is a queue of the last five. |
| KillMessages.Visible | src/game/client/components/killmessages.cpp:52-70 | Nothing is shown when kill messages are off. Otherwise the entries shown are exactly the slots no more than 500 ticks old, in the ring's oldest-first order. |
| KillMessages.Unexpired | src/game/client/components/killmessages.cpp:66-70 | An entry is kept if and only if it has not expired. A single entry is kept exactly when it is still shown. |
| KillMessages.UnexpiredAppend | src/game/client/components/killmessages.cpp:66-70 | Filtering a concatenation is filtering each part and concatenating, so the shown entries keep their relative order. |
| KillMessages.ResetShowsNothing | src/game/client/components/killmessages.cpp:15-20 | After a reset no entry is shown at any tick past -99500. |
| KillMessages.NewKillShownFor | src/game/client/components/killmessages.cpp:47-70 | A new kill is the newest entry and is shown for 500 ticks after it arrives, and not after. |

## Left out

- Device calls: the GL calls (`glDrawArrays`, texture upload and binding, `glScissor`, matrix setup) are not made. `Flush` records a submission instead, and the loader returns the upload it would make.
- Rotation arithmetic: `Rotate` uses floating-point `sinf`/`cosf`. The model records the angle and centre with each vertex (`Turn`) instead of computing rotated positions. `ZeroRotationKeepsCorners` covers the unrotated case.
- The `>256` reduction computes its ratio in `float` (graphics.cpp:293-294). Textures.FitSizeAsWritten takes the product exactly, so float rounding of the ratio is not modelled.
- Floating point: positions, texture coordinates, colours, rotation angles, `m_Width/2`-style centring and the text cursor's `x += Size/2` are C `float`s. The model uses exact `real`s, so rounding is not modelled. Graphics.CenteredSpan, Graphics.TextLayout, Graphics.SingleLineLayout and Graphics.QuadsTextStream hold for exact arithmetic only. In `float`, a long line of text may drift from `x + i*Size/2`.
- Textures.ResampleSize uses the corrected Textures.FitSize, not the engine's width-only clamp. The engine's reduction is modelled separately as Textures.FitSizeAsWritten.
- Textures.LoadTextureRaw uploads at Textures.ResampleSize, so it inherits the corrected reduction. A 128 × 512 image is uploaded at 64 × 256 here, at 128 × 512 by the engine.
- Textures.LoadTexture loads through Textures.LoadTextureRaw and inherits the same correction.
- Input.HandleKeyboard translates scan codes with the corrected KeyMap.MapKey. The engine's empty digit test, KeyMap.MapKeyAsWritten, would drop the top-row digits. Input.Scan, Input.EdgeEvents, Input.KeyboardStep, Input.Poll and Input.Update inherit this.
- Input.Edge uses the corrected KeyMap.MapKey for the same reason.
- Graphics.SetColorVertex requires corner indices 0-3. The engine does not check them and would write outside `m_aColor`.
- Textures.UnloadTexture requires an index below `MAX_TEXTURES`. The engine does not check it and would write outside `m_aTextures`.
- Input.KeyState requires a key inside the key table. The engine does not check it and would read outside `m_aInputState`.
- Textures.LoadTextureRaw requires both sides to be at least 1 only when the image would be reduced for being oversized. For an empty side there the engine divides 0 by 0 in `float` (graphics.cpp:293-294) or, with the height empty, shrinks to a height of 0. The corrected reduction keeps every side at least one pixel, so those inputs are excluded. Empty images that are not reduced are modelled.
- Textures.LoadTexture carries the same exclusion, but only on the path that reaches Textures.LoadTextureRaw: a name shorter than 3 characters, or a file that does not decode, may hold any size.
- `QuadsDraw` rewrites the caller's array in place before drawing. The model recentres a copy, so the caller-visible change to the array is not modelled.
- PNG file I/O and decoding (`png_open_read`, `png_get_data`) are not modelled. The decoder's result is a parameter, `None` when the file does not open, and only the loader's checks on it are modelled.
- Textures.LoadTextureRaw requires a non-empty free list. The engine does not check for exhaustion, and taking the list's end would index slot -1.
- Textures.UnloadTexture returns the table only. The engine's constant return value 0 carries nothing.
- Screen mapping, `MapScreen`, `ScreenAspect`, window and swap functions, and the remaining empty or constant stubs of the device are outside this model.
- `Input.Update` takes the Maple bus devices as parameters. The controller branch of the source does nothing, so it is not modelled.
- `MouseRelative`, `MouseModeAbsolute` and `MouseModeRelative` only read or set the grab flag. `Update` models the release of the grab.
- `time_get` and `time_freq` are parameters (`now`, `freq`). On a left release the engine reads `time_get()` twice (input.cpp:180-181), once for the delta and once for the stored release time. The model uses one `now` for both, so the few ticks between the two reads are not modelled.
- `KeyboardPoll.typed` holds the characters popped from the keyboard queue in one poll. `kbd_queue_pop` itself is not modelled.
- Kill feed rendering: text widths, tee and weapon sprites, team colours and the client-table lookups of names are not modelled. The payload keeps victim, killer, weapon and mode flags.
- `NETMSGTYPE_SV_KILLMSG` is a generated constant. The message type is the datatype `MsgType`, whose two cases are a kill message and anything else.
- Constants from headers that are not part of this model (`MAX_VERTICES` 32768, `MAX_TEXTURES` 4096, `INPUT_BUFFER_SIZE` 32, the SDL 1.2 key numbers, the KallistiOS scan codes and mouse button bits) are written out as named constants in the modules that use them.
- KillMessages.OnReset requires five slots, the size of the engine's array.

## Findings

| source | as written | input that shows it | evidently intended | confidence | as-written member | corrected member |
|---|---|---|---|---|---|---|
| src/engine/client/graphics.cpp:234-250 | `LinesDraw` writes line `i` at slot `2*i` but adds `3*Num` vertices | two lines: the second line's start overwrites the first line's repeated end at slot 2, and slot 5 is never written | three slots per line, `3*i` | high, not executed | Graphics.LinesStrideLosesVertices | Graphics.LinesDraw |
| src/engine/client/graphics.cpp:290-299 | only the width is clamped to 256; the height is scaled by the width's ratio | 128 × 512 stays 128 × 512; 1024 × 3 becomes 256 × 0 | scale by the longer side, at least one pixel | high, not executed | Textures.TallTextureNotReduced | Textures.FitSize |
| src/engine/client/input.cpp:51 | the digit test is `KBD_KEY_0 <= k <= KBD_KEY_9` | the 1 key (0x1e) and the 0 key (0x27) both map to the unknown key | digits 1-9 then 0, as the keyboard numbers them | medium (rests on KallistiOS's USB HID numbering, 0x1e-0x27), not executed | KeyMap.DigitsUnmapped | KeyMap.MapKey |
