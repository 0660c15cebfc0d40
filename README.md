# Meme generator core, modelled in Dafny

This project models the logic of a React meme editor and proves properties of it.
In the editor, a user picks a template image and places text captions ("overlays") on it.
The user drags captions with the mouse and can ask a chat-completion service for caption ideas.
A separate page fetches popular templates from Reddit and Imgflip, skips the ones already stored, and saves the rest.
A gallery then shows the saved templates grouped by day, twenty slots per page.

The model has one module per source file:

- `TextWrapping` (`src/utils/textWrapping.js`): greedy word wrapping, and drawing a wrapped caption as outline-then-fill draws.
- `MemeCanvas` (`src/components/MemeCanvas.jsx`): the mouse-to-pixel scaling, the topmost-first hit test, and the press/move/release drag state as a class.
- `CreatePage` (`src/pages/CreatePage.jsx`): the editor state, and the handlers that add, update, move, delete and select overlays.
- `MemeCanvasHook` (`src/hooks/useMemeCanvas.js`): the render effect, which sizes the canvas, draws the image and then every overlay.
- `ExternalTemplates` (`src/utils/fetchExternalTemplates.js`):
  - the Imgflip and Reddit candidate pipelines;
  - URL de-duplication and popularity ranking;
  - the file-name derivation;
  - the conversion loop that skips images that could not be read.
- `FetchPage` (`src/pages/FetchPage.jsx`): the bounded fetch-and-filter retry loop, the save loop with per-template retries, and the final report.
- `FetchGallery` (`src/components/FetchGallery.jsx`): grouping by day, the day and in-day orders, flattening with day headers, pagination and the clamped page buttons.
- `AiCaptions` (`src/utils/aiCaptionGenerator.js`): the missing-key guard and the caption parse with its fallback.

Shared modules:

- `Canvas` models the browser's 2D context as a class with a state stack and a log of draw operations.
- `MemeText` holds the caption style that several files repeat.
- `Overlays` holds the overlay record and `find` by id.
- `JsStrings` and `JsArrays` model the JavaScript primitives the code relies on: `split`, `join`, `trim`, `filter`, `slice` and a stable `sort`.

Everything outside the program is a parameter of the model:

- text measurement (`measureText`) is a function `Metrics` from a font and a string to a width;
- the network, the image loader and the hosted database are oracle functions that say what each call returned;
- `Date.now()` readings, the database's `id()`, and the locale's day label (`toLocaleDateString`) are also parameters.

The code was followed where the prose description of the system differs from it. The differences:

- The hit box is one measured width of the whole, unwrapped text and `fontSize` high. It matches the single-line draw of the render effect, not the wrapped layout of `drawWrappedText`.
- `drawWrappedText` is not called anywhere in the program. It is modelled anyway, and `MemeCanvasHook.OverlayAsWrapped` relates it to what the render effect draws.
- Days in the gallery are ordered by the `fetchedAt` of the first template put into each day. That is because the day sort runs before the in-day sort.

## Model

| member | source | states |
|---|---|---|
| TextWrapping.Pack | src/utils/textWrapping.js:13-23 | the greedy packing of the remaining words after the current line yields at least one line |
| TextWrapping.Wrap | src/utils/textWrapping.js:8-25 | `wrapText` always returns at least one line |
| TextWrapping.WrapText | src/utils/textWrapping.js:8-25 | the loop over the words, which reassigns the current line and pushes finished lines, returns exactly the greedy layout `Wrap` of the text under the context's current font |
| TextWrapping.LinesWordsAppend | src/utils/textWrapping.js:9 | the words of a concatenation of lines are the words of each part, in order |
| TextWrapping.WordsOfExtended | src/utils/textWrapping.js:17 | appending `' ' + word` to a line adds exactly that word to the line's words |
| TextWrapping.PackJoin | src/utils/textWrapping.js:13-23 | joining the packed lines with single spaces gives the current line and the remaining words joined with spaces |
| TextWrapping.WrapJoin | src/utils/textWrapping.js:9-24 | joining the lines of `wrapText` with one space reproduces the input text exactly: no word is split, lost or moved |
| TextWrapping.PackWords | src/utils/textWrapping.js:13-23 | the words of the packed lines are the words of the current line followed by the remaining words |
| TextWrapping.AllPrefixesFitCons | src/utils/textWrapping.js:15-17 | the fit property of the layout is kept when a fitting line is put in front of fitting lines |
| TextWrapping.ExtendFits | src/utils/textWrapping.js:15-17 | a line extended because `current + ' ' + word` measured under `maxWidth` still has all its word prefixes measuring under `maxWidth` |
| TextWrapping.PackFits | src/utils/textWrapping.js:13-22 | every line of the packing has each of its multi-word prefixes measuring strictly under `maxWidth` |
| TextWrapping.PackBreaks | src/utils/textWrapping.js:18-20 | wherever a new line starts with word `w`, the previous line plus `' ' + w` measured at least `maxWidth`; the first line starts with the current line's first word |
| TextWrapping.WrapIsGreedy | src/utils/textWrapping.js:8-25 | the lines of `wrapText` form the greedy layout: they are the input's words in order, every extended line fits, and every break was forced |
| TextWrapping.WrapSingleWord | src/utils/textWrapping.js:9-24 | a text without spaces comes back as one line whatever `maxWidth` is, so `""` gives `[""]` |
| TextWrapping.WrapExtendedLinesFit | src/utils/textWrapping.js:15-17 | every line that holds a space, that is every line that was extended by a word, measures strictly under `maxWidth` |
| TextWrapping.BlockOpsAt | src/utils/textWrapping.js:50-63 | line `k` is drawn as an outline (draw `2k`) and then a fill (draw `2k+1`) at the same point `(x, startY + k * lineHeight)` |
| TextWrapping.DrawCaptionLine | src/utils/textWrapping.js:53-62 | one line is outlined and then filled at `(x, lineY)`: the pen becomes the black round-joined outline of width `borderWidth \|\| 4`, the fill becomes `textColor \|\| '#FFFFFF'`, and the draw log grows by exactly those two draws |
| TextWrapping.DrawLines | src/utils/textWrapping.js:50-63 | the `forEach` over the lines appends exactly the outline-then-fill draws of the whole block, line `k` at `startY + k * lineHeight`, and leaves the font and alignment as they were |
| TextWrapping.BlockOpsSnoc | src/utils/textWrapping.js:50-51 | the draws of the first `i + 1` lines are the draws of the first `i` followed by line `i`'s outline and fill at `startY + i * lineHeight` |
| TextWrapping.DrawWrappedText | src/utils/textWrapping.js:38-66 | `drawWrappedText` appends exactly the draws of the wrapped block, centred on `y` with line height `fontSize * 1.2`, and the save/restore pair leaves the context's state and state stack as they were |
| TextWrapping.SumLineYClosed | src/utils/textWrapping.js:47-51 | closed form of the sum of the line positions `startY + k * lineHeight` |
| TextWrapping.BlockCentred | src/utils/textWrapping.js:46-51 | the mean of the line positions is `y`: the block is centred on the anchor |
| TextWrapping.BlockSymmetric | src/utils/textWrapping.js:46-51 | the k-th line from the top and the k-th from the bottom lie symmetrically about `y` |
| TextWrapping.SingleLineAtAnchor | src/utils/textWrapping.js:46-62 | a text that wraps to one line is outlined and then filled at `(x, y)` itself |
| MemeText.OutlinePenIdempotent | src/utils/textWrapping.js:54-57 | setting the outline pen again before each line leaves the pen of the first line |
| MemeText.CaptionDefaults | src/hooks/useMemeCanvas.js:32-39 | the outline is black with width `borderWidth \|\| 4` (a negative width is refused and the previous one kept); the fill is `textColor \|\| '#FFFFFF'` |
| MemeText.SetCaptionFont | src/hooks/useMemeCanvas.js:27-29 | setting the caption font changes only the font, alignment and baseline, to `${fontSize}px Impact, Arial, sans-serif`, centred and middle |
| Canvas.Surface.constructor | src/hooks/useMemeCanvas.js:10 | a new 2D context: a 300 by 150 bitmap, the default state, an empty state stack and nothing drawn |
| Canvas.Surface.SetWidth | src/hooks/useMemeCanvas.js:16 | assigning the width resizes and clears the bitmap and resets the context state |
| Canvas.Surface.SetHeight | src/hooks/useMemeCanvas.js:17 | assigning the height resizes and clears the bitmap and resets the context state |
| Canvas.Surface.Save | src/hooks/useMemeCanvas.js:24 | `save()` pushes the current state |
| Canvas.Surface.Restore | src/hooks/useMemeCanvas.js:42 | `restore()` pops the last saved state, and does nothing when none was saved |
| Canvas.Surface.SetFont | src/hooks/useMemeCanvas.js:27 | assigning the font changes only the font, and a font with a negative size is ignored |
| Canvas.Surface.SetTextAlign | src/hooks/useMemeCanvas.js:28 | assigning `textAlign` changes only the alignment |
| Canvas.Surface.SetTextBaseline | src/hooks/useMemeCanvas.js:29 | assigning `textBaseline` changes only the baseline |
| Canvas.Surface.SetStrokeStyle | src/hooks/useMemeCanvas.js:32 | assigning `strokeStyle` changes only the outline colour |
| Canvas.Surface.SetLineWidth | src/hooks/useMemeCanvas.js:33 | assigning `lineWidth` changes only the outline width, and a width that is not positive is ignored |
| Canvas.Surface.SetLineJoin | src/hooks/useMemeCanvas.js:34 | assigning `lineJoin` changes only the join |
| Canvas.Surface.SetMiterLimit | src/hooks/useMemeCanvas.js:35 | assigning `miterLimit` changes only the miter limit, and a limit that is not positive is ignored |
| Canvas.Surface.SetFillStyle | src/hooks/useMemeCanvas.js:39 | assigning `fillStyle` changes only the fill colour |
| Canvas.Surface.DrawImage | src/hooks/useMemeCanvas.js:20 | `drawImage` appends one image draw at the given point |
| Canvas.Surface.StrokeText | src/hooks/useMemeCanvas.js:36 | `strokeText` appends one outline draw with the current text look and pen |
| Canvas.Surface.FillText | src/hooks/useMemeCanvas.js:40 | `fillText` appends one fill draw with the current text look and fill colour |
| Overlays.FindById | src/pages/CreatePage.jsx:68 | `find` by id returns the first overlay with that id, and nothing exactly when no overlay has it |
| MemeCanvas.TextPositionInverse | src/components/MemeCanvas.jsx:14-24 | the mouse maps to pixels by `(client - box corner) * bitmap size / displayed size`; the scaling is exact and invertible and maps the box's corners to the bitmap's corners |
| MemeCanvas.HitIndex | src/components/MemeCanvas.jsx:29-46 | the backward scan below index `i` finds an overlay whose closed box holds the point with no hit above it, and finds nothing exactly when no overlay below `i` is hit |
| MemeCanvas.FindTextAtPosition | src/components/MemeCanvas.jsx:26-49 | the loop returns the id of the topmost overlay whose box, half the measured text width either side and half `fontSize` above and below, holds the point, or `null`; the context keeps the font and alignment of the last overlay tried |
| MemeCanvas.TopmostSpec | src/components/MemeCanvas.jsx:29-48 | `null` exactly when no overlay is hit; otherwise the id of an overlay that is hit with no later overlay hit, so the latest overlay wins on overlap |
| MemeCanvas.AnchorHitsLast | src/components/MemeCanvas.jsx:39-46 | pressing on the last overlay's own anchor picks that overlay |
| MemeCanvas.DragController.constructor | src/components/MemeCanvas.jsx:8-10 | the drag state starts idle, with a zero offset and no dragged id |
| MemeCanvas.DragController.MouseDown | src/components/MemeCanvas.jsx:51-67 | a hit with a truthy id starts a drag of that id, records the mouse's offset from the overlay's anchor and selects it; a miss selects `null` and leaves the drag state alone; the context keeps the font and alignment of the last overlay the hit test tried |
| MemeCanvas.DragController.MouseMove | src/components/MemeCanvas.jsx:69-74 | while dragging a truthy id, the move asks for that overlay at the mouse minus the offset; otherwise no move is asked for |
| MemeCanvas.DragController.MouseUp | src/components/MemeCanvas.jsx:76-79 | releasing, or leaving the canvas, always ends the drag and clears the dragged id |
| MemeCanvas.DragController.PressInPlace | src/components/MemeCanvas.jsx:51-74 | pressing on an overlay and moving without moving the mouse asks to move it to where it already is, and leaves the context with the hit test's font and alignment |
| MemeCanvasHook.SceneOpsAt | src/hooks/useMemeCanvas.js:20-43 | the image is drawn at `(0, 0)` before everything else and only there; then overlay `k` is outlined and filled with its whole text at its anchor, in list order, with the outline `borderWidth \|\| 4` and the fill `textColor \|\| '#FFFFFF'` |
| MemeCanvasHook.OverlayAsWrapped | src/hooks/useMemeCanvas.js:23-43 | an overlay whose text fits on one line is drawn exactly as `drawWrappedText` would draw it |
| MemeCanvasHook.Render | src/hooks/useMemeCanvas.js:6-48 | without an image URL or an image that loads, the canvas is untouched; otherwise it takes the image's size and holds exactly the scene, with the default state and an empty state stack |
| CreatePage.AddText | src/pages/CreatePage.jsx:17-29 | adding appends exactly one overlay, `'Your text here'`, size 40, `#FFFFFF`, border 4, at `(400, 200)` when an image is chosen and `(300, 200)` otherwise, and selects it; the earlier overlays are unchanged |
| CreatePage.UpdateWhere | src/pages/CreatePage.jsx:31-59 | the update by id changes exactly the overlays with that id, keeping length and order |
| CreatePage.UpdateAbsent | src/pages/CreatePage.jsx:31-59 | an update naming an id no overlay has leaves the list unchanged |
| CreatePage.ChangeText | src/pages/CreatePage.jsx:31-35 | only the text of the overlays with that id changes |
| CreatePage.ChangeFontSize | src/pages/CreatePage.jsx:37-41 | only the font size of the overlays with that id changes |
| CreatePage.ChangeTextColor | src/pages/CreatePage.jsx:43-47 | only the colour of the overlays with that id changes |
| CreatePage.ChangeBorderWidth | src/pages/CreatePage.jsx:49-53 | only the border width of the overlays with that id changes |
| CreatePage.MoveText | src/pages/CreatePage.jsx:55-59 | only the position of the overlays with that id changes |
| CreatePage.FindAfterUpdate | src/pages/CreatePage.jsx:31-59 | after an update by id, looking any id up finds the updated overlay exactly where it found the old one |
| CreatePage.MoveInPlace | src/pages/CreatePage.jsx:55-59 | moving an overlay with a unique id to its own position leaves the list unchanged |
| CreatePage.DeleteText | src/pages/CreatePage.jsx:61-66 | deleting removes every overlay with that id and keeps every other one; the selection is cleared exactly when it was the deleted id |
| CreatePage.DeleteKeepsOthers | src/pages/CreatePage.jsx:61-62 | deleting keeps the relative order of the rest, and each other overlay as many times as before |
| CreatePage.SelectedText | src/pages/CreatePage.jsx:68 | the selected overlay is the first overlay with the selected id, or none |
| CreatePage.AddSelectsNew | src/pages/CreatePage.jsx:17-29 | after adding with a fresh id, the selected overlay is the new one |
| CreatePage.DeleteSelection | src/pages/CreatePage.jsx:61-68 | deleting the selected overlay leaves nothing selected; deleting any other keeps the same selected overlay |
| CreatePage.FindFiltered | src/pages/CreatePage.jsx:61-62 | deleting one id does not change what any other id finds |
| JsStrings.Split | src/utils/textWrapping.js:9 | `split` on one character always gives at least one piece, none holding the separator |
| JsStrings.SplitConcat | src/utils/textWrapping.js:9 | splitting at a separator splits the two sides independently |
| JsStrings.SplitWithoutSep | src/utils/textWrapping.js:9 | a string without the separator splits into itself alone |
| JsStrings.SplitJoin | src/utils/aiCaptionGenerator.js:51-52 | splitting the join of separator-free pieces gives the pieces back |
| JsStrings.SplitKeepsOut | src/utils/fetchExternalTemplates.js:329-330 | a character absent from a string is absent from each of its pieces |
| JsStrings.JoinSplit | src/utils/textWrapping.js:9 | joining the pieces of a split gives the string back |
| JsStrings.JoinCons | src/utils/textWrapping.js:17 | joining one more piece in front adds one separator |
| JsStrings.JoinMerge | src/utils/textWrapping.js:17 | two pieces joined with the separator join like the two pieces |
| JsStrings.JoinSnoc | src/utils/textWrapping.js:17 | joining one more piece at the end adds one separator |
| JsStrings.SplitCount | src/utils/textWrapping.js:9 | a string holds the separator exactly when it splits into several pieces |
| JsStrings.LeadingSpace | src/utils/aiCaptionGenerator.js:53 | the length of the leading run of ECMAScript white space and line terminators |
| JsStrings.TrailingSpace | src/utils/aiCaptionGenerator.js:53 | the length of the trailing run of ECMAScript white space and line terminators |
| JsStrings.Trim | src/utils/aiCaptionGenerator.js:53 | `trim` gives a slice of the string with only white space cut at either end and none left at either end |
| JsStrings.NatToString | src/pages/FetchPage.jsx:196 | the decimal rendering of a number has at least one character, all digits |
| JsStrings.DigitChar | src/pages/FetchPage.jsx:196 | a digit renders as a decimal digit character |
| JsStrings.IntToString | src/utils/fetchExternalTemplates.js:331 | the rendering of an integer in a template literal is never empty |
| JsStrings.NatToStringRoundTrip | src/pages/FetchPage.jsx:196 | reading the rendered digits back gives the number |
| JsStrings.LowerAscii | src/utils/fetchExternalTemplates.js:331 | ASCII lower-casing maps each character on its own and keeps the length |
| JsArrays.Filter | src/utils/aiCaptionGenerator.js:54 | `filter` keeps exactly the elements that pass, and never more elements than it was given |
| JsArrays.FilterAppend | src/pages/CreatePage.jsx:62 | filtering a concatenation filters each part |
| JsArrays.FilterCount | src/pages/CreatePage.jsx:62 | filtering keeps each passing element as many times as before and drops every other |
| JsArrays.FilterAll | src/utils/aiCaptionGenerator.js:54 | filtering elements that all pass changes nothing |
| JsArrays.ClampIndex | src/components/FetchGallery.jsx:60 | `slice` clamps a negative index from the end, and an index past the end to the length |
| JsArrays.Slice | src/components/FetchGallery.jsx:60 | `slice(start, end)` is the clamped window of the array |
| JsArrays.Take | src/utils/aiCaptionGenerator.js:55 | `slice(0, n)` is the first `min(n, length)` elements |
| JsArrays.Insert | src/utils/fetchExternalTemplates.js:314-316 | inserting into a descending array, in front of the first element with a key that is not larger, keeps it descending and adds exactly the element |
| JsArrays.ConsSorted | src/utils/fetchExternalTemplates.js:314-316 | an element ranked no lower than the head of a descending array can go in front of it and the array stays descending |
| JsArrays.SortDesc | src/utils/fetchExternalTemplates.js:314-316 | sorting by a key with a descending comparator gives a permutation in non-increasing key order |
| JsArrays.WithKeyAppend | src/utils/fetchExternalTemplates.js:314-316 | the elements with a given key in a concatenation are those of each part |
| JsArrays.InsertStable | src/utils/fetchExternalTemplates.js:314-316 | inserting keeps elements with the same key in their order |
| JsArrays.SortDescStable | src/components/FetchGallery.jsx:31-39 | the sort is stable: elements with the same key stay in input order |
| JsArrays.TakeSortedIsTop | src/utils/fetchExternalTemplates.js:314-316 | the first `n` after the sort are a sub-multiset of the input, in order, and every element left out ranks no higher than each one kept |
| JsArrays.SortedPrefixTop | src/utils/fetchExternalTemplates.js:314-316 | in a descending array every element before position `m` ranks at least as high as any element from `m` on |
| JsArrays.DistinctOnce | src/components/FetchGallery.jsx:31 | an element of a duplicate-free array occurs once |
| JsArrays.TwiceInMultiset | src/utils/fetchExternalTemplates.js:313-316 | an element at two positions occurs at least twice |
| JsArrays.SubMultisetDistinct | src/components/FetchGallery.jsx:31 | part of a duplicate-free array is duplicate-free |
| JsArrays.SortDescMembers | src/components/FetchGallery.jsx:37-39 | sorting keeps exactly the same members |
| ExternalTemplates.FromImgflip | src/utils/fetchExternalTemplates.js:54-81 | Imgflip yields at most 10 candidates, and none when the reply failed, reported no success or had no memes |
| ExternalTemplates.ImgflipSorted | src/utils/fetchExternalTemplates.js:59-62 | the Imgflip candidates are in non-increasing `box_count` order |
| ExternalTemplates.ImgflipFromMemes | src/utils/fetchExternalTemplates.js:60-75 | each Imgflip candidate is the mapping of a meme of the reply |
| ExternalTemplates.ImgflipTopTen | src/utils/fetchExternalTemplates.js:60-62 | every meme left out has no larger `box_count` than each one kept |
| ExternalTemplates.CandidatesFrom | src/utils/fetchExternalTemplates.js:62-75 | mapping part of the memes maps into the mapping of all of them |
| ExternalTemplates.RedditName | src/utils/fetchExternalTemplates.js:223 | the name is the first 50 characters of the title, or `'Reddit Meme'` when that is empty |
| ExternalTemplates.FromReddit | src/utils/fetchExternalTemplates.js:213-236 | a Reddit listing yields at most `limit` candidates, and none when the listing could not be had |
| ExternalTemplates.RedditFromImagePosts | src/utils/fetchExternalTemplates.js:214-236 | each candidate is the mapping of a post whose URL ends in an image extension (any case) or mentions `i.redd.it` or `imgur.com` |
| ExternalTemplates.RedditKeepsImagePosts | src/utils/fetchExternalTemplates.js:214-236 | with no more image posts than the limit, the candidates are exactly the image posts, mapped, in order |
| ExternalTemplates.RedditKeepsEveryImagePost | src/utils/fetchExternalTemplates.js:214-221 | with no more image posts than the limit, no image post is dropped |
| ExternalTemplates.UrlSetMembers | src/utils/fetchExternalTemplates.js:304-308 | the seen-URL set holds exactly the URLs of the candidates scanned |
| ExternalTemplates.UniqueByUrl | src/utils/fetchExternalTemplates.js:302-311 | de-duplication keeps every URL once, only candidates of the input, and no more than the input |
| ExternalTemplates.UniqueKeepsFirst | src/utils/fetchExternalTemplates.js:302-311 | the first candidate with each URL is kept |
| ExternalTemplates.UniquePrefix | src/utils/fetchExternalTemplates.js:302-311 | the candidates kept from a prefix are a prefix of those kept from the whole, so the input order is kept |
| ExternalTemplates.UniqueStep | src/utils/fetchExternalTemplates.js:306-310 | one more candidate leaves what was kept before it in place: the kept list of the shorter input is a prefix of the longer one's |
| ExternalTemplates.DedupByUrl | src/utils/fetchExternalTemplates.js:302-311 | the loop with its seen-URL set computes the de-duplication `UniqueByUrl` |
| ExternalTemplates.MostPopular | src/utils/fetchExternalTemplates.js:313-316 | ranking keeps `min(20, n)` candidates, a sub-multiset of the input in non-increasing popularity, and every candidate left out is no more popular than each one kept |
| ExternalTemplates.Extension | src/utils/fetchExternalTemplates.js:329-330 | the extension is never empty and holds no `.` and no `?` |
| ExternalTemplates.ExtensionOf | src/utils/fetchExternalTemplates.js:329-330 | a URL ending in `.ext`, maybe followed by a `?` query, has extension `ext` |
| ExternalTemplates.Stem | src/utils/fetchExternalTemplates.js:331 | the stem holds only lower-case ASCII letters, digits and dashes, and is no shorter than the name |
| ExternalTemplates.StemCharStem | src/utils/fetchExternalTemplates.js:331 | the stem of one character's replacement is the replacement itself |
| ExternalTemplates.StemAppend | src/utils/fetchExternalTemplates.js:331 | the stem of a concatenation is the concatenation of the stems |
| ExternalTemplates.StemIdempotent | src/utils/fetchExternalTemplates.js:331 | sanitising a sanitised name changes nothing |
| ExternalTemplates.FileNameExtension | src/utils/fetchExternalTemplates.js:329-331 | the stored file name keeps the extension of the image URL |
| ExternalTemplates.Converted | src/utils/fetchExternalTemplates.js:321-348 | the conversion never yields more templates than it was given |
| ExternalTemplates.KeptIndices | src/utils/fetchExternalTemplates.js:322-327 | the indices converted are, in increasing order, exactly those whose image read gave data |
| ExternalTemplates.ConvertedSpec | src/utils/fetchExternalTemplates.js:321-348 | the `j`-th stored template is the `j`-th candidate whose image was read: its name, description, source and metadata, `originalUrl = url`, the data read, and the file name built from its index |
| ExternalTemplates.ConvertedAll | src/utils/fetchExternalTemplates.js:326-343 | when every image is read, nothing is dropped |
| ExternalTemplates.KeptAll | src/utils/fetchExternalTemplates.js:326-327 | when every image is read, every index is kept |
| ExternalTemplates.ConvertAll | src/utils/fetchExternalTemplates.js:321-348 | the loop that pushes each converted template and skips each failure computes `Converted` |
| ExternalTemplates.Prepare | src/utils/fetchExternalTemplates.js:302-348 | de-duplication, ranking and conversion give at most 20 stored templates |
| ExternalTemplates.PreparedUrlsDistinct | src/utils/fetchExternalTemplates.js:302-348 | no two stored templates share an original URL |
| ExternalTemplates.RankedUrlsDistinct | src/utils/fetchExternalTemplates.js:313-316 | ranking de-duplicated candidates keeps URLs distinct |
| ExternalTemplates.SubMultisetUrlsDistinct | src/utils/fetchExternalTemplates.js:313-316 | part of a list with distinct URLs has distinct URLs |
| ExternalTemplates.UniqueOnce | src/utils/fetchExternalTemplates.js:313-316 | in a list with distinct URLs each element occurs once |
| ExternalTemplates.ConvertedDistinct | src/utils/fetchExternalTemplates.js:321-348 | converting candidates with distinct URLs gives stored templates with distinct original URLs |
| ExternalTemplates.FetchRedditTemplates | src/utils/fetchExternalTemplates.js:276-356 | the hot and top listings, up to 100 each, are combined and prepared, giving at most 20 templates |
| ExternalTemplates.FetchImgflipTemplates | src/utils/fetchExternalTemplates.js:361-432 | the Imgflip candidates are prepared, giving at most 10 templates |
| FetchPage.KnownUrls | src/pages/FetchPage.jsx:57-64 | the known URLs are exactly the existing templates' original URLs with the falsy ones dropped: every non-empty one is in the set, and every member of the set is one of them |
| FetchPage.KnownUrlsSnoc | src/pages/FetchPage.jsx:60-64 | one more stored template adds its original URL to the set, or nothing when it has none |
| FetchPage.Fresh | src/pages/FetchPage.jsx:90-102 | the filter keeps only templates of the batch, none with a URL already known and no two with the same URL; the set afterwards is exactly the set before plus the batch's non-empty URLs |
| FetchPage.FreshIndices | src/pages/FetchPage.jsx:90-102 | the indices the filter keeps are increasing and are exactly those of templates with no URL, or with a URL neither known nor carried by an earlier template of the batch |
| FetchPage.FreshSpec | src/pages/FetchPage.jsx:90-102 | the kept templates are exactly the batch's templates at those indices, in batch order and each once, so the order `filter` keeps decides what `slice(0, 20)` keeps later |
| FetchPage.FreshInOrder | src/pages/FetchPage.jsx:90-102 | the same characterisation of the kept templates for every prefix of the batch |
| FetchPage.FreshKeeps | src/pages/FetchPage.jsx:90-102 | a template without an original URL is always kept, and so is the first template with a new URL |
| FetchPage.FilterNew | src/pages/FetchPage.jsx:90-102 | the filter callback that grows the set of fetched URLs computes `Fresh` |
| FetchPage.Loop | src/pages/FetchPage.jsx:72-121 | an accepted result holds at most 20 templates after at most 5 attempts |
| FetchPage.LoopKeepsAccepted | src/pages/FetchPage.jsx:105-108 | templates accepted on earlier attempts are never lost: they head the accepted list |
| FetchPage.LoopStopsAtTarget | src/pages/FetchPage.jsx:78-110 | the loop ends before its fifth attempt only once it holds exactly 20 templates |
| FetchPage.FetchNew | src/pages/FetchPage.jsx:57-121 | the `while` loop with its attempt counter, URL set and template list computes `Loop` from the existing URLs |
| FetchPage.LoopNew | src/pages/FetchPage.jsx:74-121 | the loop keeps its accepted templates new and free of repeated URLs |
| FetchPage.AppendNew | src/pages/FetchPage.jsx:90-105 | adding a batch's kept templates to templates whose URLs are already in `allFetchedUrls` keeps every URL new and distinct, and all of them end up in the set |
| FetchPage.PrefixNew | src/pages/FetchPage.jsx:107-108 | cutting the list down to `TARGET_TEMPLATES` keeps its URLs new and distinct |
| FetchPage.FetchedTemplatesAreNew | src/pages/FetchPage.jsx:57-121 | no accepted template has an existing URL, and no two accepted templates share a URL, within a batch or across batches |
| FetchPage.LoopFailsLast | src/pages/FetchPage.jsx:115-119 | the loop fails only with the error of the fifth batch |
| FetchPage.LoopAllErrors | src/pages/FetchPage.jsx:115-119 | when every remaining batch fails, the fifth batch's error is thrown |
| FetchPage.ErrorSwallowed | src/pages/FetchPage.jsx:115-119 | an error on attempts 1 to 4 is swallowed: the loop goes on as after an empty batch |
| FetchPage.LoopSame | src/pages/FetchPage.jsx:78-121 | the result depends only on the batches of the attempts still to come |
| FetchPage.FirstSave | src/pages/FetchPage.jsx:151-186 | the retry at which a template is saved, trying at most three times, or none when every try fails |
| FetchPage.SaveResults | src/pages/FetchPage.jsx:144-188 | saved plus failed is the number of templates, and there is one new id per saved template |
| FetchPage.SavedSome | src/pages/FetchPage.jsx:144-188 | something is saved exactly when some try of some template succeeds |
| FetchPage.SaveAll | src/pages/FetchPage.jsx:144-188 | the nested save loop with its counters computes `SaveResults` |
| FetchPage.FetchTemplates | src/pages/FetchPage.jsx:57-203 | the whole fetch reports the outcome `ReportOf` gives for the loop and the saves |
| FetchPage.ReportSuccess | src/pages/FetchPage.jsx:123-201 | the report is a success exactly when templates were accepted and at least one was saved |
| FetchPage.NothingNewNothingSaved | src/pages/FetchPage.jsx:123-127 | when every batch is empty, the report is the "No new templates" error and nothing is saved |
| FetchPage.NothingNew | src/pages/FetchPage.jsx:78-121 | empty batches run all five attempts and accept nothing |
| FetchGallery.DayOrder | src/components/FetchGallery.jsx:12-27 | the days the grouping creates are distinct |
| FetchGallery.OnDay | src/components/FetchGallery.jsx:12-27 | a day's group holds only dated templates of that day from the input |
| FetchGallery.DayOrderMembers | src/components/FetchGallery.jsx:12-27 | a day is a key exactly when its group is non-empty |
| FetchGallery.OnDayCount | src/components/FetchGallery.jsx:13-26 | a day's group holds each dated template of that day as often as the input does, and nothing else |
| FetchGallery.FirstOnDay | src/components/FetchGallery.jsx:22-26 | the first template of a day's group is the first dated template of that day |
| FetchGallery.GroupsStep | src/components/FetchGallery.jsx:12-27 | one more template adds itself to its day's group, creating the group if needed, or changes nothing when undated |
| FetchGallery.GroupByDay | src/components/FetchGallery.jsx:10-27 | the `forEach` that pushes into the dictionary computes the groups and the order of the days |
| FetchGallery.TemplatesByDay | src/components/FetchGallery.jsx:9-42 | the grouping gives the day order sorted by the first `fetchedAt` of each day, and every group sorted by `fetchedAt` |
| FetchGallery.SortEachDay | src/components/FetchGallery.jsx:37-39 | sorting each day's group in place gives every group sorted newest first |
| FetchGallery.SortedGroupsEqual | src/components/FetchGallery.jsx:37-39 | the groups are sorted once every day's group is |
| FetchGallery.DaysOrdered | src/components/FetchGallery.jsx:31-35 | the days are exactly the keys, each once, in non-increasing order of the first `fetchedAt` of their group |
| FetchGallery.DayKeyIsFirst | src/components/FetchGallery.jsx:31-35 | a day's sort key is the `fetchedAt` of the first template put into it |
| FetchGallery.Cards | src/components/FetchGallery.jsx:49-51 | one card item per template, in order |
| FetchGallery.Flatten | src/components/FetchGallery.jsx:45-54 | the nested `forEach` that pushes headers and cards computes `Flat` |
| FetchGallery.Layout | src/components/FetchGallery.jsx:9-54 | the gallery list is the flattening of the sorted groups in the sorted day order |
| FetchGallery.CardsOfAppend | src/components/FetchGallery.jsx:45-54 | the cards and the headers of a concatenation are those of each part |
| FetchGallery.CardsOfCards | src/components/FetchGallery.jsx:49-51 | a run of cards holds its templates and no headers |
| FetchGallery.FlatCards | src/components/FetchGallery.jsx:45-54 | the cards of the flat list are the groups' templates, day after day |
| FetchGallery.FlatHeaders | src/components/FetchGallery.jsx:47-48 | there is one header per day, in day order, whose count is the size of the day's group |
| FetchGallery.FlatStep | src/components/FetchGallery.jsx:47-53 | one more day adds exactly its header and then its group's cards to the laid-out list |
| FetchGallery.FlatLength | src/components/FetchGallery.jsx:45-54 | the flat list has one slot per day and one per template |
| FetchGallery.ConcatCount | src/components/FetchGallery.jsx:45-54 | a template that belongs to one day occurs in the flat list as often as in that day's group |
| FetchGallery.ShownOnce | src/components/FetchGallery.jsx:9-54 | each dated template is shown as often as it is in the input, and an undated one is never shown |
| FetchGallery.TotalPages | src/components/FetchGallery.jsx:57 | the page count is `ceil(slots / 20)`, headers counting as slots |
| FetchGallery.PageSize | src/components/FetchGallery.jsx:57-60 | each page in range shows 1 to 20 slots, and every page but the last shows 20 |
| FetchGallery.PagesCover | src/components/FetchGallery.jsx:58-60 | the first `k` pages together show the first `20k` slots |
| FetchGallery.PagesPartition | src/components/FetchGallery.jsx:57-60 | all pages together show the flat list exactly once, in order |
| FetchGallery.Pager.constructor | src/components/FetchGallery.jsx:5 | the gallery opens on page 1 |
| FetchGallery.Pager.Previous | src/components/FetchGallery.jsx:62-65 | Previous goes back one page and never below 1 |
| FetchGallery.Pager.Next | src/components/FetchGallery.jsx:67-70 | Next goes forward one page and never past the page count |
| FetchGallery.ClickWithinRange | src/components/FetchGallery.jsx:127-146 | a click on an enabled button moves exactly one page and stays in range, so the new page shows 1 to 20 slots |
| AiCaptions.DigitRun | src/utils/aiCaptionGenerator.js:54 | the length of the leading run of decimal digits |
| AiCaptions.NumberedMatches | src/utils/aiCaptionGenerator.js:54 | testing the longest leading digit run is exactly the test `/^\d+[\.\)]/` |
| AiCaptions.Lines | src/utils/aiCaptionGenerator.js:51-53 | the lines are the `'\n'`-separated pieces of the content, each trimmed, in order |
| AiCaptions.ParseCaptions | src/utils/aiCaptionGenerator.js:51-57 | the captions are the first `min(10, n)` surviving lines in order, or `['No captions generated']` when none survive, so 1 to 10 of them |
| AiCaptions.GenerateCaptions | src/utils/aiCaptionGenerator.js:10-57 | a missing key is an error with the fixed message; a generated result holds 1 to 10 captions |
| AiCaptions.NoKeyNoRequest | src/utils/aiCaptionGenerator.js:10-12 | without a key the result does not depend on the reply: no request is made |
| AiCaptions.CaptionsAreLines | src/utils/aiCaptionGenerator.js:51-55 | each caption, unless it is the fallback, is a trimmed line of the content, non-empty, without white space at either end and not numbered |
| AiCaptions.CaptionsComplete | src/utils/aiCaptionGenerator.js:54-55 | with at most ten surviving lines, every one of them is returned |
| AiCaptions.TrimTrimmed | src/utils/aiCaptionGenerator.js:53 | a string without white space at either end trims to itself |
| AiCaptions.ParseJoin | src/utils/aiCaptionGenerator.js:51-57 | one to ten captions, written one per line, parse back as themselves |

## Left out

- The network is not modelled: `fetch`, the CORS proxy fallbacks, the HTML sniffing and the JSON parsing of the Reddit listing (`src/utils/fetchExternalTemplates.js:89-267`). Each listing is a parameter: the posts, or nothing on failure.
- The image read (`imageUrlToBase64`, with its `FileReader`, `src/utils/fetchExternalTemplates.js:17-49`) is an oracle giving the data read, if any.
- `Promise.allSettled` is left out. The fetchers catch every error, so neither promise rejects.
- The Groq request itself, its prompt and its body (`src/utils/aiCaptionGenerator.js:14-48`) are left out. The reply is a parameter: an error message, or the first choice's content, if any. A reply without a `choices` array, which throws a `TypeError`, is not modelled.
- The hosted database (`src/utils/templateStorage.js`, `src/utils/memeStorage.js`, `src/hooks/useVoting.js`, `src/config/*`) is left out. So are the availability checks of `src/pages/FetchPage.jsx:30-53`. A save is an oracle saying whether the try succeeded, and `id()` is a parameter.
- The vote-once rule is not modelled. It is only a component-local flag (`src/components/MemeCard.jsx`), and nothing shown records a vote per user.
- The `TEST_MODE` branch (`src/pages/FetchPage.jsx:132-140`) is left out. Its switch is a constant `false`.
- The `setTimeout` back-off delays and the console logging change no state the model holds.
- The text of the user-facing success and error messages is kept. Setting React state and the loading flag are not.
- Rendering of the JSX is left out: the empty-gallery message, the cards, the totals line, and the page buttons' markup beyond their disabled tests. So are the download button (`src/components/DownloadButton.jsx`) and `exportImage`/`toBlob`.
- Pixel output, image decoding and colour parsing of the canvas are left out. A colour is a string, and an invalid CSS colour is not rejected as a browser would.
- Coordinates, sizes and scale factors are `real`, not IEEE doubles. No claim is made about rounding.
- MemeCanvas.TextPositionInverse: assumes a displayed box of non-zero width and height. A zero-size canvas receives no mouse events.
- FetchGallery.TemplatesByDay: assumes the day labels are not array-index-like strings. JavaScript enumerates such keys of `Object.keys` first, in numeric order. `toLocaleDateString` is the parameter `dayKey`, and its labels are never numeric.
- Timestamps (`Date.now()`) are the parameter `clock`, one reading per use.
- ExternalTemplates.RedditName: counts characters as Unicode scalar values, not UTF-16 code units, for `substring(0, 50)`.
- ExternalTemplates.Stem: models `toLowerCase` exactly only for ASCII letters, KELVIN SIGN, LATIN CAPITAL LETTER I WITH DOT ABOVE, and characters outside the Basic Multilingual Plane. For those last, each of the two code units becomes a dash. Other non-ASCII upper-case letters become a dash, as they do after lower-casing.
- `JSON.stringify` of the template metadata is not modelled. The stored metadata is kept as the structured value.
- `parseInt` of the font size and border width in `src/components/TextControls.jsx` is left out. A `NaN` value is outside the model, which holds these as integers.
