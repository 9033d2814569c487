# Triangle shooter: renderers, buttons, ship grid

This project models the CPU-side core of a small WebGL/Emscripten shooter:
- three batched renderers:
  - the line renderer (polylines batched by colour and thickness);
  - the shape/image renderer (queues of rectangles and images);
  - the text renderer (runs of text sorted by z-index and drawn one batch per colour);
- the button widget layer on top of them;
- the ship's triangle-cell table with its grid and drag rotation;
- the browser-to-device coordinate conversion and mouse dispatch of `main.cpp`.

Every GPU call is replaced by an entry in a ghost trace of abstract draw commands (`commands`, `draws`, `cellUploads`, `cannonUploads`). Each flush is proved to append exactly the draws its queue calls for.

Modules, one per source component:

| file | module | models |
|---|---|---|
| `vectors.dfy` | `Vectors` | `glm::vec2`/`vec4` over reals; the text renderer's `Vec4Comparator` |
| `ordering.dfy` | `Ordering` | strict total orders and the ascending enumeration a `std::map` range-for follows |
| `wrappers.dfy` | `Wrappers` | `Option` for null pointers and unset fields; `Result`/`Outcome` for a thrown `std::runtime_error` |
| `seqs.dfy` | `Seqs` | small sequence facts shared by the loop proofs |
| `line_renderer.dfy` | `LineRenderer` | `lineRenderer/` |
| `renderer2d.dfy` | `Renderer2D` | `renderer2d/` |
| `text_renderer.dfy` | `TextRenderer` | `textRenderer/` |
| `button.dfy` | `Button` | `button/` |
| `starship.dfy` | `Starship` | `starship/` |
| `app.dfy` | `App` | `main.cpp`: `browserToNormalized`, the mouse handlers, the ship's start-up |

How the model represents the source:
- **Classes.** Objects whose fields the source updates become classes: `LineRenderer`, `Renderer2D`, `TextRenderer`, `ButtonManager`, `Starship`, `App`. Their `std::vector`/`std::map` members become `seq`/`map` fields.
- **Pure code.** Pure computations are functions: the hit test, the layouts, `LineKey::operator<`, `getRandomAtlasCoords`, `browserToNormalized`.
- **Loops.** Every loop of the source is a method with a loop proved against a specification function: `triangulateLine`, the flush loops, `getStringMetrics`, `getLetterPositions`, the index loop of `initialize`, `updateCellUniforms`, `initGrid`, the search of `newAttackCell`.
- **`updateCellUniforms`** packs into real `array`s.
- **Button pointers** are opaque ids into a `store` map that stands for the heap.
- **Callbacks.** A callback is only "set or not"; invoking it appends the button id to the ghost log `fired`.
- **Default arguments.** The source's default arguments are Dafny default parameter values: colour white and thickness 1 for the line renderer's `draw` overloads, rotation 0 for its `flush` (lineRenderer.h:13-15), colour white for the text renderer's `draw` and `drawCentered` (textRenderer.h:19,21).
- **Parameters instead of library calls:**
  - `glm::normalize` and `atan2f` are function parameters;
  - the two `rand()` parities of `getRandomAtlasCoords` are boolean parameters;
  - FreeType's glyph table is an input `map<char, Glyph>`.
- **Glyph lookups.** `characters[c]` inserts an all-zero glyph for a missing character. The model keeps that insertion: `WithDefaults` is the table after the lookups, and `GlyphOf` is the value looked up.

Two orders are left open or fixed by the code itself:
- **Text sort.** `flush` sorts the text queue with `std::sort` on the z-index alone, and `std::sort` is not stable, so runs with equal z-indices may end up in any order.
  - `TextRenderer.Flush` therefore promises only *some* z-sorted permutation (`IsZOrder`).
  - `TieOrderKeepsDraws` proves that the freedom over tied z-indices changes neither which draws are issued, nor their order, nor their index counts.
  - `DistinctZOrderIsUnique` proves the order is forced when z-indices are distinct.
- **Colour groups.** The batches live in a `std::map` keyed by `Vec4Comparator`, and a range-for over a `std::map` is ascending, so the colours are drawn in ascending comparator order; `TextPassAscending` proves that order.

## Model

| member | source | states |
|---|---|---|
| Vectors.ColorLessIsStrictTotal | textRenderer/textRenderer.cpp:275-282 | the x, y, z, w comparison chain is irreflexive, transitive and total over reals, so `std::map` may order colours by it |
| Vectors.ColorEquivalentIffEqual | textRenderer/textRenderer.cpp:275-282 | two colours are equivalent under the comparator exactly when they are equal, so equal colours share one batch |
| Ordering.LeastExists | lineRenderer/lineRenderer.cpp:120 | every non-empty finite set has a least element under a strict total order |
| Ordering.LeastUnique | lineRenderer/lineRenderer.cpp:120 | that least element is unique |
| Ordering.Least | lineRenderer/lineRenderer.cpp:120 | picks the least element of a non-empty set |
| Ordering.Ascending | lineRenderer/lineRenderer.cpp:120 | the enumeration of a set holds exactly its elements, each once |
| Ordering.AscendingSorted | lineRenderer/lineRenderer.cpp:120 | the enumeration is strictly ascending, which is the order a range-for over a `std::map` follows |
| Ordering.AscendingStep | lineRenderer/lineRenderer.cpp:120 | the enumeration starts with the least element and continues with the enumeration of the rest |
| LineRenderer.KeyLessIsStrictTotal | lineRenderer/lineRenderer.h:24-30 | `LineKey::operator<` is a strict total order over reals |
| LineRenderer.KeyEquivalentIffEqual | lineRenderer/lineRenderer.h:24-30 | two keys are equivalent exactly when colour and thickness all agree, so equal (colour, thickness) pairs share one batch |
| LineRenderer.KeyLessIsLexicographic | lineRenderer/lineRenderer.h:24-30 | keys compare by colour first (r, g, b, a) and by thickness only on equal colours |
| LineRenderer.SortedKeys | lineRenderer/lineRenderer.cpp:120 | the keys flush visits are exactly the map's keys, each once |
| LineRenderer.SortedKeysAscend | lineRenderer/lineRenderer.cpp:120 | flush visits the keys in strictly ascending `LineKey` order |
| LineRenderer.Offsets | lineRenderer/lineRenderer.cpp:70-95 | one offset vector per point: the end points use their segment's normal, interior points the miter |
| LineRenderer.MidpointOfPair | lineRenderer/lineRenderer.cpp:72-73 | a point is the midpoint of itself minus and plus the same offset |
| LineRenderer.PairsLength | lineRenderer/lineRenderer.cpp:70-95 | the vertex pairs from point j on number 2(N − j) |
| LineRenderer.PairsAt | lineRenderer/lineRenderer.cpp:72-95 | pair m sits at positions 2(m − j) and 2(m − j) + 1, as point m minus and plus its offset |
| LineRenderer.StripShape | lineRenderer/lineRenderer.cpp:63-97 | a strip has no vertex below two points and 2N for N ≥ 2; vertices 2j and 2j + 1 are point j minus and plus its offset, so their midpoint is exactly point j |
| LineRenderer.TriangulateLine | lineRenderer/lineRenderer.cpp:63-97 | the loop builds the strip: empty for fewer than 2 points, otherwise 2N vertices whose pair j has midpoint points[j] |
| LineRenderer.BatchVertexCount | lineRenderer/lineRenderer.cpp:123-141 | k polylines of n_i points give Σ 2·n_i + 2·(k − 1) vertices |
| LineRenderer.ConnectorRepeatsEnds | lineRenderer/lineRenderer.cpp:129-135 | between consecutive strips sits a connector that repeats the batch's last vertex and the next strip's first vertex |
| LineRenderer.BatchMap | lineRenderer/lineRenderer.cpp:120-121 | flush builds vertices exactly for the keys that hold at least one polyline |
| LineRenderer.LeastKeyExists | lineRenderer/lineRenderer.cpp:120 | a non-empty key set has a least key |
| LineRenderer.SortedKeysStep | lineRenderer/lineRenderer.cpp:120 | the least key is visited first |
| LineRenderer.FlushStep | lineRenderer/lineRenderer.cpp:120-153 | taking the least remaining key either skips it or appends its draw and grows the capacity; the rest of the draws are those of the remaining keys |
| LineRenderer.BatchMapAt | lineRenderer/lineRenderer.cpp:123-141 | a key with polylines gets the vertices of its polylines at half its thickness |
| LineRenderer.UploadsStep | lineRenderer/lineRenderer.cpp:143-152 | unfolds the draws at the first key: a key with vertices emits one draw whose `reallocated` flag is `dataSize > capacity`, and the capacity grows to that size |
| LineRenderer.CapacityGrowsOnly | lineRenderer/lineRenderer.cpp:143-149 | `bufferCapacity` never decreases and ends at least as large as every uploaded size |
| LineRenderer.ReallocatesOnNewMaximum | lineRenderer/lineRenderer.cpp:143-149 | an upload reallocates exactly when it is larger than the starting capacity and every earlier upload of the flush; with the initial capacity 0 the first non-empty upload reallocates |
| LineRenderer.OneDrawPerKey | lineRenderer/lineRenderer.cpp:120-153 | one draw per key with polylines, in key order, carrying that key's colour, the flush's projection and rotation, and its vertices |
| LineRenderer.BuildBatch | lineRenderer/lineRenderer.cpp:123-141 | the inner loop produces the key's strips joined by connectors |
| LineRenderer.BuildKeyBatch | lineRenderer/lineRenderer.cpp:123-141 | the vertices built for one key are that key's entry of the batch |
| LineRenderer.UploadKey | lineRenderer/lineRenderer.cpp:121-152 | one key's draw: its colour, the flush's projection and rotation, its vertices and 8 bytes per vertex; reallocated exactly when larger than the capacity, which then grows |
| LineRenderer.DrawKeys | lineRenderer/lineRenderer.cpp:116-153 | the key loop emits the draws of all keys in ascending order and returns the final capacity |
| LineRenderer.LineRenderer.constructor | lineRenderer/lineRenderer.h:40-41 | empty batch map, capacity 0, no draws |
| LineRenderer.LineRenderer.Draw | lineRenderer/lineRenderer.cpp:104-108 | fewer than 2 points leaves the map unchanged; otherwise the polyline goes to the end of its (colour, thickness) key's list and every other key is untouched; colour and thickness default to white and 1 |
| LineRenderer.LineRenderer.DrawSegment | lineRenderer/lineRenderer.cpp:100-102 | appends the two-point polyline [from, to] to its key's list, every other key untouched; colour and thickness default to white and 1 |
| LineRenderer.LineRenderer.Flush | lineRenderer/lineRenderer.cpp:110-157 | an empty map changes nothing; otherwise one draw per key in ascending order, each carrying the caller's projection matrix and the rotation (default 0), capacity as after those uploads, and the map is empty afterwards |
| Renderer2D.CreateProgram | renderer2d/renderer2d.cpp:98-126 | the handle is nonzero exactly when both shaders compiled, the program linked and GL gave a handle; otherwise 0 |
| Renderer2D.RectCommand | renderer2d/renderer2d.cpp:249-254 | a rectangle draw carries its colour, position, size and radius; the border sent is 0 when filled and `borderWidth` otherwise |
| Renderer2D.RectCommandsInOrder | renderer2d/renderer2d.cpp:248-255 | one draw per queued rectangle, in queue order |
| Renderer2D.RectPassShape | renderer2d/renderer2d.cpp:234-259 | an empty queue or shader handle 0 draws nothing; otherwise the program is selected once, then one draw per rectangle in order |
| Renderer2D.ImageQuad | renderer2d/renderer2d.cpp:279-286 | an image quad has 6 vertices |
| Renderer2D.ImageQuadCorners | renderer2d/renderer2d.cpp:279-286 | every vertex is a corner of [x, x+w] × [y, y+h] with u, v in {0, 1} and v flipped; (x, y) has UV (0, 1), (x+w, y+h) has UV (1, 0), and the two triangles share a diagonal |
| Renderer2D.ImageCommand | renderer2d/renderer2d.cpp:288-292 | an image draw carries its texture, its tint and its quad |
| Renderer2D.ImageCommandsInOrder | renderer2d/renderer2d.cpp:276-293 | one draw per queued image, in queue order |
| Renderer2D.ImagePassShape | renderer2d/renderer2d.cpp:261-297 | an empty queue or shader handle 0 draws nothing; otherwise the program once, then one draw per image in order |
| Renderer2D.PassesKeepToTheirKind | renderer2d/renderer2d.cpp:229-232 | the rectangle pass issues no image draw and the image pass no rectangle draw, so every rectangle of a flush precedes every image |
| Renderer2D.Renderer2D.constructor | renderer2d/renderer2d.h:43-62 | screen 800 × 600, both shader handles 0, both queues empty |
| Renderer2D.Renderer2D.Init | renderer2d/renderer2d.cpp:128-193 | each handle becomes what `createProgram` gives for its shader pair, so it stays 0 when compiling or linking failed |
| Renderer2D.Renderer2D.SetScreenSize | renderer2d/renderer2d.cpp:204-207 | stores the new size |
| Renderer2D.Renderer2D.DrawFilledRect | renderer2d/renderer2d.cpp:209-211 | appends one filled rectangle with border 0 and radius 0; the image queue is outside its frame |
| Renderer2D.Renderer2D.DrawRect | renderer2d/renderer2d.cpp:213-215 | appends one outlined rectangle with the given border and radius 0 |
| Renderer2D.Renderer2D.DrawFilledRoundedRect | renderer2d/renderer2d.cpp:217-219 | appends one filled rectangle with border 0 and the given radius |
| Renderer2D.Renderer2D.DrawRoundedRect | renderer2d/renderer2d.cpp:221-223 | appends one outlined rectangle with the given border and radius |
| Renderer2D.Renderer2D.DrawImage | renderer2d/renderer2d.cpp:225-227 | appends one image; the rectangle queue is outside its frame |
| Renderer2D.Renderer2D.FlushRects | renderer2d/renderer2d.cpp:234-259 | the queue is empty afterwards and the trace grows by the rectangle pass of the old queue |
| Renderer2D.Renderer2D.FlushImages | renderer2d/renderer2d.cpp:261-297 | the queue is empty afterwards and the trace grows by the image pass of the old queue |
| Renderer2D.Renderer2D.Flush | renderer2d/renderer2d.cpp:229-232 | both queues empty; the rectangle pass strictly before the image pass |
| TextRenderer.WithDefaults | textRenderer/textRenderer.cpp:298 | after `characters[c]` for each c of a set, the table has those keys too; existing entries are kept and new ones are the all-zero glyph |
| TextRenderer.LookupUnchangedByDefaults | textRenderer/textRenderer.cpp:308 | inserting default glyphs changes no lookup result |
| TextRenderer.WidthIsScaledAdvance | textRenderer/textRenderer.cpp:363-366 | a string's width is the sum of its `Advance >> 6` values times the scale |
| TextRenderer.PeakIsMaximum | textRenderer/textRenderer.cpp:358-374 | a running maximum from 0 is ≥ 0, ≥ every element, and is 0 or one of them |
| TextRenderer.MetricsStep | textRenderer/textRenderer.cpp:363-374 | one more character adds its scaled advance to the width and takes the maximum of each of height, ascent and descent |
| TextRenderer.DefaultsKeepMetrics | textRenderer/textRenderer.cpp:364 | measuring after default insertions gives the same width and heights |
| TextRenderer.WithDefaultsTwice | textRenderer/textRenderer.cpp:364 | inserting defaults for one set and then another is inserting them for the union |
| TextRenderer.MeasureString | textRenderer/textRenderer.cpp:358-374 | the loop returns the summed scaled advance and the three maxima, all ≥ 0 |
| TextRenderer.LetterPositions | textRenderer/textRenderer.cpp:382-397 | max(1, \|text\|) positions, the first x, each next the previous plus that character's scaled advance; position k is x plus the width of the first k characters |
| TextRenderer.CenteredRunSpansX | textRenderer/textRenderer.cpp:294-304 | a centred run starts half its width left of x, so it is centred on x, and its baseline is not above y |
| TextRenderer.GlyphQuadGeometry | textRenderer/textRenderer.cpp:306-320 | a glyph's quad is offset from the pen by the scaled bearing, is the scaled bitmap size, its top is bearingY above the baseline, and its atlas V is flipped top to bottom |
| TextRenderer.RunQuads | textRenderer/textRenderer.cpp:306-326 | one quad per character |
| TextRenderer.RunQuadsByIndex | textRenderer/textRenderer.cpp:306-326 | quads placed with the pen at the origin plus the width of the characters before each are exactly the run's quads |
| TextRenderer.LayoutQuads | textRenderer/textRenderer.cpp:306-326 | the pen loop produces those quads |
| TextRenderer.LayoutRun | textRenderer/textRenderer.cpp:291-326 | one run's loop body produces the run's quads from its (possibly centred) origin |
| TextRenderer.ColorsMembership | textRenderer/textRenderer.cpp:288 | a colour has a batch exactly when some queued run has that colour |
| TextRenderer.QueueCharsMembership | textRenderer/textRenderer.cpp:298 | a character is looked up exactly when some queued run contains it |
| TextRenderer.SameRunsSameSets | textRenderer/textRenderer.cpp:268-271 | reordering the queue changes neither its colours nor the characters it looks up |
| TextRenderer.ColorVerticesLength | textRenderer/textRenderer.cpp:322-323 | a colour's batch has one quad (16 floats) per character counted for it |
| TextRenderer.AbsentColorIsEmpty | textRenderer/textRenderer.cpp:288-289 | a colour no run uses has no quads and count 0 |
| TextRenderer.AppendTo | textRenderer/textRenderer.cpp:288 | `colorBatches[c]` appends to c's batch, starting an absent colour empty; other colours are unchanged |
| TextRenderer.AddTo | textRenderer/textRenderer.cpp:289 | `charCounts[c]` adds to c's count, starting an absent colour at 0; other colours are unchanged |
| TextRenderer.BatchedAsStep | textRenderer/textRenderer.cpp:287-327 | adding one run's quads and characters to its colour keeps batches and counts those of the queue prefix |
| TextRenderer.BatchByColor | textRenderer/textRenderer.cpp:287-327 | the loop gives each colour of the queue all its runs' quads in queue order, and its character count |
| TextRenderer.SortedColors | textRenderer/textRenderer.cpp:329 | the colours visited are exactly the map's colours, each once |
| TextRenderer.NextDraw | textRenderer/textRenderer.cpp:329-339 | the least remaining colour's draw comes next and uses that colour's batch and count × 6 indices |
| TextRenderer.DrawsForShape | textRenderer/textRenderer.cpp:329-339 | draw i is colour i's vertices with 6 indices per character |
| TextRenderer.TextPassOnePerColor | textRenderer/textRenderer.cpp:329-339 | flush issues exactly one draw per distinct colour of the queue |
| TextRenderer.TextPassDrawContents | textRenderer/textRenderer.cpp:329-339 | each draw uses the projection built from the screen size, uploads its colour's quads, one per character, and draws 6 indices per character |
| TextRenderer.TextPassAscending | textRenderer/textRenderer.cpp:329 | the draws come in strictly ascending `Vec4Comparator` order |
| TextRenderer.SortedColorsStep | textRenderer/textRenderer.cpp:329 | the least colour is visited first |
| TextRenderer.LeastColorExists | textRenderer/textRenderer.cpp:329 | a non-empty colour set has a least colour |
| TextRenderer.InsertByZSorted | textRenderer/textRenderer.cpp:268-271 | inserting a run keeps the queue z-sorted and adds exactly that run |
| TextRenderer.SortByZIndex | textRenderer/textRenderer.cpp:268-271 | the sort yields a permutation of the queue in non-decreasing z-index |
| TextRenderer.ColorCharsPermutation | textRenderer/textRenderer.cpp:268-271 | a colour's character count does not depend on the queue's order |
| TextRenderer.TieOrderKeepsDraws | textRenderer/textRenderer.cpp:268-339 | any two z-sorted orders give the same draws, in the same order, with the same index counts |
| TextRenderer.DistinctZOrderIsUnique | textRenderer/textRenderer.cpp:268-271 | with pairwise distinct z-indices there is exactly one z-sorted order |
| TextRenderer.ExplicitZIndicesOrder | textRenderer/textRenderer.cpp:268-271 | runs queued with z-indices 5, 1, 3 are processed in the order 1, 3, 5 |
| TextRenderer.BuildIndices | textRenderer/textRenderer.cpp:182-190 | six indices per quad in the pattern 4i + (0, 1, 2, 1, 3, 2), so 6c indices touch exactly the first 4c vertices |
| TextRenderer.TextRenderer.constructor | textRenderer/textRenderer.cpp:8-9 | uninitialised, counter 0, screen 800 × 600, empty table and queue |
| TextRenderer.TextRenderer.Initialize | textRenderer/textRenderer.cpp:137-221 | stores size and resets the counter; a font that failed returns false and changes nothing more; otherwise merges the glyphs keeping existing entries, builds the index pattern, and succeeds and becomes initialised exactly when both shaders compile and the program links (else throws) |
| TextRenderer.TextRenderer.SetScreenSize | textRenderer/textRenderer.cpp:223-226 | stores the new size, which every later flush's draws carry as their projection |
| TextRenderer.TextRenderer.Draw | textRenderer/textRenderer.cpp:249-251 | appends an uncentred run with the counter's value and increments the counter; the colour defaults to white |
| TextRenderer.TextRenderer.DrawAt | textRenderer/textRenderer.cpp:253-255 | appends an uncentred run with the given z-index; the counter is unchanged |
| TextRenderer.TextRenderer.DrawCentered | textRenderer/textRenderer.cpp:257-259 | appends a centred run with the counter's value and increments the counter; the colour defaults to white |
| TextRenderer.TextRenderer.DrawCenteredAt | textRenderer/textRenderer.cpp:261-263 | appends a centred run with the given z-index; the counter is unchanged |
| TextRenderer.TextRenderer.Clear | textRenderer/textRenderer.cpp:345-349 | empties the queue and resets the counter to 0 |
| TextRenderer.TextRenderer.DrawBatches | textRenderer/textRenderer.cpp:329-339 | the colour loop appends one draw per colour in ascending colour order |
| TextRenderer.TextRenderer.Flush | textRenderer/textRenderer.cpp:265-343 | uninitialised or empty: nothing changes; otherwise the draws are those of some z-sorted permutation of the queue, each with the projection of the current screen size, every looked-up character is in the table, and queue and counter are reset |
| TextRenderer.TextRenderer.DrawQueue | textRenderer/textRenderer.cpp:287-339 | both loops over the sorted queue append its text pass |
| TextRenderer.TextRenderer.GetStringMetrics | textRenderer/textRenderer.cpp:351-375 | throws when uninitialised; otherwise the width is the scaled advance sum, the three maxima are ≥ 0, and the looked-up characters are added |
| TextRenderer.TextRenderer.GetLetterPositions | textRenderer/textRenderer.cpp:377-398 | throws when uninitialised; otherwise max(1, \|text\|) positions, position k being x plus the width of the first k characters |
| Button.InsideEdges | button/button.cpp:20-25 | the hit test includes all four edges: both corners are inside, and a point strictly beyond any edge is outside |
| Button.FirstHit | button/button.cpp:52-60 | None exactly when no button contains the point; otherwise an index whose button contains it with no earlier button containing it |
| Button.FirstHitIsUnique | button/button.cpp:54-59 | any index that is a hit with no earlier hit is the one FirstHit returns |
| Button.RemoveFirst | button/button.cpp:39-50 | an absent pointer leaves the collection as it was; a present one shortens it by one |
| Button.RemoveFirstMultiset | button/button.cpp:39-50 | exactly one occurrence of the pointer goes and every other entry stays |
| Button.RemoveFirstAt | button/button.cpp:40-43 | the entries before and after the erased one keep their order |
| Button.BackgroundRects | button/button.cpp:81-119 | a filled shape in the button's colour, plus an outline in the border colour exactly when `borderWidth > 0`, each at the button's rectangle; rounded exactly when `borderRadius > 0` |
| Button.DefaultButtonIsOnePlainRect | button/button.h:11-26 | a default button draws as one filled 100 × 40 rectangle at (0, 0), grey, no border, no radius |
| Button.BackgroundsCount | button/button.cpp:81-119 | the background pass queues one shape per button plus one per bordered button |
| Button.ModeOf | button/button.cpp:132-170 | "top" and "left" select their layouts and every other string, the empty default included, the centre layout |
| Button.CenteredTextIsCentred | button/button.cpp:178-183 | without an image the label's centre is the button's centre |
| Button.TopLayout | button/button.cpp:132-145 | image above label with the gap between them, both centred horizontally, and the stack centred vertically on the button |
| Button.LeftLayout | button/button.cpp:146-159 | image at the left edge of the centred box, label ending at its right edge, the gap between them, both centred vertically |
| Button.CenterLayout | button/button.cpp:160-170 | label and image each centred on the button |
| Button.ForegroundOf | button/button.cpp:124-184 | texture id 0 means no image and an always-drawn centred label; otherwise the image at its layout position, and the label only when the text is non-empty |
| Button.ForegroundIgnoresDefaults | button/button.cpp:126 | glyph defaults inserted by measuring move no label or image |
| Button.LabelsNumbered | button/button.cpp:172-183 | the labels of a pass get consecutive z-indices from the counter |
| Button.TextOnlyButtons | button/button.cpp:178-183 | buttons without images queue one label each and no image |
| Button.CreateKeepsWellformed | button/button.cpp:27-31 | appending a fresh button keeps every pointer live and unique and the active button live |
| Button.RemoveKeepsWellformed | button/button.cpp:39-50 | erasing an entry and deleting its button keeps that bookkeeping once a removed active button is cleared |
| Button.BackgroundsStep | button/button.cpp:81-119 | one more button appends its background shapes to those of the buttons before it |
| Button.ForegroundStep | button/button.cpp:124-184 | one more button appends its label, its image and its characters to those of the buttons before it |
| Button.ForegroundAdvance | button/button.cpp:124-184 | queueing a button's label and image measured with the glyph table grown so far gives the queues and table of one more button |
| Button.ButtonManager.constructor | button/button.cpp:5-6 | no renderers, no buttons, no active button, nothing fired |
| Button.ButtonManager.Init | button/button.cpp:15-18 | stores both renderer pointers |
| Button.ButtonManager.CreateButton | button/button.cpp:27-31 | a fresh pointer to a copy of the config, appended after every existing button, the others unchanged |
| Button.ButtonManager.GetColor | button/button.cpp:196-201 | the button's colour, transparent black for a null pointer |
| Button.ButtonManager.SetColor | button/button.cpp:190-194 | only that button's colour changes, so GetColor then returns it; null does nothing |
| Button.ButtonManager.SetCallback | button/button.cpp:33-37 | only that button's callback changes; null does nothing |
| Button.ButtonManager.RemoveButton | button/button.cpp:39-50 | an absent pointer changes nothing; otherwise its first entry is erased, the button deleted, and the active button cleared exactly when it was the one removed |
| Button.ButtonManager.FingerStart | button/button.cpp:52-60 | the previous active button is discarded; the first button in collection order containing the point becomes active, none if none does |
| Button.ButtonManager.FingerRelease | button/button.cpp:62-77 | no active button: returns false and nothing changes; otherwise the active button is always cleared, the result is whether the point is inside it, and its callback fires exactly once when inside and set |
| Button.ButtonManager.EnqueueBackgrounds | button/button.cpp:81-119 | the rectangle queue grows by every button's background shapes, in collection order |
| Button.ButtonManager.EnqueueForeground | button/button.cpp:125-183 | measuring throws and changes nothing when the text renderer is uninitialised; otherwise the button's label and image are queued and its characters added to the glyph table |
| Button.ButtonManager.EnqueueForegrounds | button/button.cpp:124-184 | the loop throws exactly when uninitialised with buttons present; otherwise all labels with consecutive z-indices and all images are queued in order |
| Button.ButtonManager.DrawBackgrounds | button/button.cpp:79-121 | backgrounds queued then one shape flush: both queues empty, trace grows by the rectangle pass then the image pass |
| Button.ButtonManager.FlushText | button/button.cpp:187 | the text flush of drawButtons, as TextRenderer.Flush |
| Button.ButtonManager.DrawForegrounds | button/button.cpp:123-187 | labels and images queued, then images flushed and text flushed; an uninitialised text renderer throws before anything is queued |
| Button.ButtonManager.FlushAll | button/button.cpp:186-187 | the image-only shape flush, then the text flush |
| Button.ButtonManager.DrawButtons | button/button.cpp:79-188 | backgrounds in one pass, then the images pass, then the text drawn in a z-sorted order; throws after the backgrounds when the text renderer is uninitialised |
| Starship.DefaultGridFacts | starship/starship.h:129-133 | the 9 × 9 grid of 0.12 cells is centred on 0 and its 162 cells fit the 256-instance arrays; MAX_CANNONS is 256 |
| Starship.AtlasCoords | starship/starship.cpp:434-478 | corners lie in the sprite's third of the atlas, v inside (0, 1), the bottom edge flat, and `useTop` decides whether v grows upward; padding 0 |
| Starship.FlipSwapsOnlyU | starship/starship.cpp:463-472 | flipping swaps the left and right u-values and never changes a v-value |
| Starship.DeadCell | starship/starship.cpp:597-600 | a pushed cell is dead and carries its number |
| Starship.Alive | starship/starship.cpp:492-504 | the alive cells, in order, no more than the table |
| Starship.AliveExactly | starship/starship.cpp:492-504 | exactly the alive cells are kept, as many as there are |
| Starship.AlivePrefix | starship/starship.cpp:492-504 | the alive cells of a prefix are a prefix of the alive cells |
| Starship.NoneAlive | starship/starship.cpp:591-602 | a table of dead cells has no alive cell |
| Starship.FirstNumbered | starship/starship.cpp:553-558 | None exactly when no cell has the number; otherwise the first index holding it |
| Starship.NumberedFirst | starship/starship.cpp:553-558 | in a numbered table, number n is at index n − 1 |
| Starship.ReplaceFirst | starship/starship.cpp:553-558 | only the first cell with the number is overwritten; no match leaves the table as it was |
| Starship.SquareMiddles | starship/starship.cpp:564-589 | both middles of a square lie strictly inside it, on either side of its diagonal, symmetric about its centre |
| Starship.SlotDecode | starship/starship.cpp:572-582 | index (j·W + i)·2 + t denotes square (i, j) and triangle t |
| Starship.SlotsTile | starship/starship.cpp:564-589 | the written indices cover every index below 2WH exactly once |
| Starship.SlotBound | starship/starship.cpp:572 | each square's indices are below the cell total |
| Starship.Look | starship/starship.cpp:536-550 | fire, ice and radioactive get a sprite, atlas corners from that sprite and a colour; any other name gets none of them |
| Starship.AttackCell | starship/starship.cpp:511-550 | the new cell is alive, an attack cell with the given name and number, the old middle point, a position, and a half turn exactly when the number is odd |
| Starship.SlotDecodes | starship/starship.cpp:520-522 | the number of the triangle at slot (i, j, t) decodes to pair row j and column i, and is odd exactly for the top-left triangle |
| Starship.AttackCellOnItsSquare | starship/starship.cpp:520-533 | on a vertically centred grid the attack cell of a triangle sits at its square's centre, turned exactly for the top-left triangle |
| Starship.AttackCellPlaced | starship/starship.cpp:525-533 | a number in pair (column i, row j) is placed half a cell into that column and row counted from the top |
| Starship.SquareCentreFromTop | starship/starship.cpp:525-526 | on a vertically centred grid that position is the square's centre |
| Starship.PairSharesPosition | starship/starship.cpp:524-532 | the two triangles of a square share one position and differ in their turn |
| Starship.AttackKeepsNumbered | starship/starship.cpp:511-558 | on a numbered table newAttackCell overwrites exactly entry n − 1 with an alive cell and the table stays numbered |
| Starship.Corners | starship/starship.cpp:496-498 | a cell contributes three atlas corners |
| Starship.Pack | starship/starship.cpp:486-504 | the packed arrays hold one transform and colour and three corners per cell |
| Starship.PackedInOrder | starship/starship.cpp:494-500 | slot k holds cell k's transform and colour |
| Starship.PackedCornersInOrder | starship/starship.cpp:496-498 | slots 3k to 3k + 2 hold cell k's corners |
| Starship.PackStep | starship/starship.cpp:494-502 | packing one more cell appends its transform, corners and colour |
| Starship.Middles | starship/starship.cpp:229 | the cannon positions are the cells' middle points, in order |
| Starship.DragIsPathIndependent | starship/starship.cpp:727 | back at the start angle the rotation is the start rotation, and a resumed drag composes into one |
| Starship.VerticalLines | starship/starship.cpp:621-628 | W + 1 vertical lines |
| Starship.HorizontalLines | starship/starship.cpp:630-637 | H + 1 horizontal lines |
| Starship.DiagonalLines | starship/starship.cpp:639-649 | one diagonal per square |
| Starship.GridLines | starship/starship.cpp:618-651 | the buffer has 2(W+1) + 2(H+1) + 2WH vertices |
| Starship.SquareDiagonal | starship/starship.cpp:639-649 | the diagonal of square (i, j) is line i·H + j and joins its bottom-left and top-right corners |
| Starship.NextEdge | starship/starship.cpp:621-637 | neighbouring column edges and row edges are one cell apart |
| Starship.GridLineDirections | starship/starship.cpp:621-649 | the first W + 1 lines span the grid's height, the next H + 1 its width, the rest climb one cell right and up |
| Starship.Starship.constructor | starship/starship.cpp:150-162 | default grid, no cells, rotation 0, not dragging, nothing uploaded |
| Starship.Starship.InitStarshipCells | starship/starship.cpp:591-602 | exactly 2WH cells, cell k dead and numbered k + 1 |
| Starship.Starship.InitCellMiddlePoints | starship/starship.cpp:564-589 | every index below 2WH gets the middle of the triangle it denotes; nothing else changes |
| Starship.Starship.UpdateCellUniforms | starship/starship.cpp:481-509 | nothing without cells; otherwise uploads the packing of the alive cells, in table order |
| Starship.Starship.PackAlive | starship/starship.cpp:486-504 | arrays as long as the table; `aliveCount` is the number of alive cells and the first aliveCount slots hold their packing |
| Starship.Starship.PackInto | starship/starship.cpp:494-500 | writing one alive cell into slot `slot` extends the packing by that cell |
| Starship.Starship.Place | starship/starship.cpp:494-500 | writing one value into the next slot extends the array's filled prefix by that value |
| Starship.Starship.PlaceCorners | starship/starship.cpp:496-498 | writing one cell's three corners extends the filled prefix by those corners |
| Starship.Starship.UpdateCannonPositions | starship/starship.cpp:223-236 | `cannonCount` is min(#alive, 256) and the uploaded positions are the middles of the first cannonCount alive cells, in order |
| Starship.Starship.NewAttackCell | starship/starship.cpp:511-562 | the first cell with the number becomes the attack cell, every other cell is unchanged, and the uniforms are repacked |
| Starship.Starship.FindNumbered | starship/starship.cpp:553-558 | the search finds the first cell with the number, if any |
| Starship.Starship.OnMouseDown | starship/starship.cpp:693-705 | button 2 starts a drag remembering the rotation and the angle from the grid centre; other buttons change nothing |
| Starship.Starship.OnMouseUp | starship/starship.cpp:707-711 | only button 2 ends a drag |
| Starship.Starship.OnMouseMove | starship/starship.cpp:713-728 | always records the cursor; while dragging the rotation is the start rotation plus the angle swept, otherwise unchanged |
| Starship.Starship.InitGrid | starship/starship.cpp:618-651 | the buffer is the vertical, horizontal and diagonal lines in that order, and the vertex count is 2(W+1) + 2(H+1) + 2WH |
| Starship.Starship.PushVerticals | starship/starship.cpp:621-628 | appends the vertical lines |
| Starship.Starship.PushHorizontals | starship/starship.cpp:630-637 | appends the horizontal lines |
| Starship.Starship.PushDiagonals | starship/starship.cpp:639-649 | appends the diagonals, column by column |
| App.BrowserToNormalized | main.cpp:89-92 | x maps [0, width] affinely onto [−1, 1], y maps [0, height] onto [1, −1]; each pixel coordinate is recovered from the normalized one |
| App.NormalizedToBrowser | main.cpp:89-92 | an inverse: normalizing its result gives back the normalized point, so the map is onto |
| App.NormalizedCorners | main.cpp:89-92 | (0, 0) goes to (−1, 1), (width, height) to (1, −1), the canvas centre to (0, 0) |
| App.NormalizedDetermined | main.cpp:89-92 | only the pixel point with n's coordinates normalizes to n, so the map is one-to-one |
| App.NormalizedMonotone | main.cpp:90-91 | strictly increasing in x and strictly decreasing in y, both directions of each |
| App.NormalizedInSquare | main.cpp:89-92 | points on the canvas normalize into [−1, 1] × [−1, 1] |
| App.FlipAgrees | main.cpp:96-97 | the pixel point (targetX, height − targetY) the buttons receive is the ship's normalized point scaled back, y up in both |
| App.StartupOverrunsTable | main.cpp:519-521 | the last start-up loop as written reaches cell 163 of a 162-cell table |
| App.StartupRunsFit | main.cpp:507-521 | the corrected loops stay within the table and differ from the written ones only in the last bound |
| App.StartupName | main.cpp:507-521 | a cell gets a name at start-up exactly when a loop covers it, and then that loop's name |
| App.StartupCellsFollow | main.cpp:507-521 | the four loops applied to the dead table give the start-up cells: alive exactly where a loop visited, named by it |
| App.AttackedNone | main.cpp:507-509 | before a loop's first call no cell of its range is attacked |
| App.AttackedStep | main.cpp:507-509 | newAttackCell for number i extends the attacked range by cell i |
| App.App.constructor | main.cpp:61-63 | width 800, height 600 |
| App.App.OnMouseDown | main.cpp:94-109 | button 0 presses the buttons at (targetX, height − targetY), other buttons leave them; the ship gets every button at the normalized point |
| App.App.Press | main.cpp:99-101 | only button 0 reaches fingerStart |
| App.App.OnMouseUp | main.cpp:111-124 | button 0 releases the buttons at the flipped point, firing the active button's callback only when the release is inside it; the ship gets every button |
| App.App.OnMouseMove | main.cpp:126-131 | only the ship hears it, at the normalized point; the buttons are outside its frame |
| App.App.SetUpShip | main.cpp:507-523 | after building the table and grid and the corrected attack loops, the table holds the start-up cells and the cannon count is min(#alive, 256) |
| App.App.BuildShip | main.cpp:453-455 | 162 numbered dead cells, each with its middle point, and the grid lines |
| App.App.AttackStartupRuns | main.cpp:507-521 | the four loops, the last stopping at 162, leave the start-up cells |
| App.App.AttackRange | main.cpp:507-509 | one loop makes cells lo to hi − 1 attack cells built from their entries and leaves every other cell as it was |

Definitions without a contract of their own are stated through the lemmas above: `Button.Inside` (button/button.cpp:20-25) through InsideEdges and FirstHit, `Button.ImageLayout` (button/button.cpp:132-170) through the three layout lemmas, `Starship.Middle`/`MiddleAt` (starship/starship.cpp:574-586) through SquareMiddles and InitCellMiddlePoints, `Starship.DragRotation` (starship/starship.cpp:727) through DragIsPathIndependent, and `App.StartupRunsAsWritten`, `StartupRuns`, `RunFits` and `StartupCells` (main.cpp:507-521) through the start-up lemmas. `App.InverseCoordinate` and `App.SignOfScaled` are arithmetic steps of the normalization lemmas.

## Left out

- All OpenGL/WebGL calls, shader sources, VAO/VBO/IBO and texture handling: foreign calls. Each flush appends abstract draw commands instead. `LineRenderer::init`/`cleanup`, `Renderer2D::cleanup`, `setupRenderState`/`cleanupRenderState`, `drawCells`, `drawGrid`, `renderCannons`, `initCannons` (apart from its `updateCannonPositions` call) and `initCellRendering` are GPU plumbing with no CPU state worth modelling.
- Projection matrices: a shape or text draw records the screen size its `glm::ortho` projection is built from, and a line draw records the 16 entries its caller passed. No matrix is multiplied.
- The cell transform matrices: a cell records its translation and whether it is turned half round (`Placement`).
- FreeType and `generateAtlas`: the glyph table is an input. Font loading failure is a `None` input to `Initialize`.
- `normalize`, `atan2f`, `cosf`/`sinf`: parameters or not modelled. Trigonometric facts are not proved.
- `rand()`: its two parities are parameters of `AtlasCoords`, and a `rolls` function for the start-up loops.
- Floating point: reals throughout. There is no rounding, no NaN, and no 32-bit overflow of `int`/`size_t`. `0.3f` and `0.12f` are taken as exact decimals.
- LineRenderer.MiterLength: a polyline that turns back on itself makes the source divide by a zero dot product (NaN). The model uses length 0 there, and midpoint symmetry does not depend on it.
- TextRenderer.TextRenderer.Flush: does not model the 4096-character capacity of the vertex buffer. A batch over 4096 characters overflows the GPU buffer in the source.
- TextRenderer.TextRenderer.Initialize: the GL parts (atlas texture, buffers) are left out; only the table merge, the index pattern and the throw paths are modelled.
- Button callbacks: the `std::function` body is not run. A call is logged in `fired`, so a callback that changes its button is not modelled. The `main.cpp` demo button and its toggle callback (main.cpp:465-487) are not modelled.
- The `ButtonManager` destructor and raw-pointer deletion: the store map drops the removed id.
- Button.ButtonManager.GetColor: requires a non-null pointer to be live, because the source dereferences it.
- Starship.Starship.NewAttackCell: requires 1 ≤ number ≤ table size, because the source reads `cells[cellNumber - 1]` unchecked.
- Starship.AttackCell: requires a valid grid and a positive number; a non-positive number reads outside the table in the source.
- App.BrowserToNormalized: requires a positive width and height; a zero-size canvas divides by zero in the source.
- App.App.SetUpShip: uses the corrected last loop (see Findings). `setAspect`, the renderers' `init`/`initialize` calls in `main`, the resize handler, the FBO passes and the Emscripten main loop are not modelled, and `width`/`height` never change after construction.
- Starship fields that `newAttackCell` leaves unset (sprite, corners, colour for names other than fire, ice and radioactive; the union payload) are `None`.
- `getRandomAtlasCoords`' `sprite == 3` branch is kept as written in `AtlasCoords`. It is unreachable because `AtlasSprite` only takes 0, 1 and 2, so no lemma speaks about it.
- Button.ButtonManager.SetColor: requires a non-null pointer to be live, because the source writes through it.
- Button.ButtonManager.SetCallback: requires a non-null pointer to be live, because the source writes through it.
- Button.ButtonManager.DrawButtons: requires both renderer pointers to be set, because the source calls through them unchecked.
- Starship.Starship.InitCellMiddlePoints: requires the table to hold at least 2WH cells, because the source writes `cells[cellNum]` unchecked.

## Findings

| source | as written | input that shows it | evidently intended | confidence | as-written member | corrected member |
|---|---|---|---|---|---|---|
| main.cpp:519 | `for(int i = 139; i < 164; ++i)` calls `newAttackCell(CELL_RADIOACTIVE, i)` | i = 163: the default 9 × 9 grid has 162 cells, so `newAttackCell` reads `cells[162]` (starship.cpp:513), one past the end | `i < 163`, stopping at the last cell | not executed | App.StartupOverrunsTable | App.StartupRunsFit |
