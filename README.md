# your-receipt: a Dafny model of the sticker-overlay page

The page (`src/app/page.tsx`) lets a user upload a base photo and pick a small "sticker" from a gallery. The sticker is shown on top of the photo, where the user drags it. The user then downloads or shares the result as a single PNG called `receipt.png`. This project models the statable logic of that page:

- **Geometry**: two sizing rules. The letterbox fit sizes the uploaded photo inside its measured container. The height cap sizes the selected sticker.
- **Gallery**: the append-only list of stickers. Entry ids are assigned as length + 1.
- **NumberParse**: the part of JavaScript's `parseFloat` the page relies on. It skips leading white space and reads the longest decimal literal (sign, digits, fraction, exponent). A string with no literal gives NaN, modelled as `None`.
- **Transform**: reading the sticker's drag offset out of its CSS `transform` string. The regular expressions `translateX\((.*?)px\)` and `translateY\((.*?)px\)` are modelled exactly: leftmost match, lazy capture, and `.` not crossing a line terminator. On top of that come the `'0'` fallbacks, the `none` reset and `parseFloat(..) || 0`.
- **Export**: what an export draws, the size of the canvas, and where the result goes: a download link, the share sheet, or a "not supported" log line.
- **Session**: the component's state as a class `Home`, with one field per `useState` except `switchState`. Each event handler and each browser callback is a method.

Sizes are exact `real`s. The browser's asynchronous callbacks (file reader load, image load) are separate methods. Their inputs are what the browser hands over: the data URL, the decoded image's intrinsic size, and the container's measured client size (or `None` when the container is not mounted). Whether an image loads during export is a boolean input, and so is whether the platform offers sharing.

Behaviour of the page worth knowing:

- **Exporting with no sticker selected produces nothing.** The overlay image is pointed at `''`, which never fires `onload`, so the draw and the dispatch never run.
- **Exporting before any fit draws on a 0x0 canvas**, because `imageSize` starts at `{0, 0}`.
- **The sticker cap applies to the height only.** It is `min(100, height)`, whichever axis is larger. A 200x50 sticker keeps its 200x50 size.
- **A late sticker decode is not checked against the current selection.** If it arrives after a newer selection, it overwrites that selection's size. `Home.OnSelectionLoaded` keeps this behaviour. The height cap still holds whatever order the callbacks arrive in, because it is part of `Home.Valid()`.

## Model

| member | source | states |
|---|---|---|
| Geometry.Letterbox | src/app/page.tsx:61-68 | The fitted size is non-negative and lies within the container on both axes. It keeps the image's aspect ratio (stated as a cross-multiplied equality). Its width equals the container's width exactly when the image is relatively at least as wide as the container; otherwise its height equals the container's height. |
| Geometry.AspectRatioFitIsLetterbox | src/app/page.tsx:61-68 | The page's own computation gives exactly the letterbox fit. That computation divides by the aspect ratio to get a candidate height for the full width, and re-fits by height when the candidate exceeds the container height. |
| Geometry.LetterboxIsLargest | src/app/page.tsx:61-68 | No box with the image's aspect ratio that fits in the container is wider or taller than the fit. |
| Geometry.LetterboxIsUnique | src/app/page.tsx:61-68 | Any box with the image's aspect ratio that fits in the container and touches it on one axis is the fit. |
| Geometry.LetterboxLandscapeExample | src/app/page.tsx:61-68 | A 1000x500 image in a 476x300 container is shown at 476x238. |
| Geometry.LetterboxPortraitExample | src/app/page.tsx:61-68 | A 500x1000 image in that container is re-fitted by height to 150x300. |
| Geometry.OverlaySize | src/app/page.tsx:105-108 | The overlay's height is at most 100 and at most its intrinsic height, and it equals one of the two. The aspect ratio is kept. An image at most 100 tall keeps its intrinsic size. |
| Geometry.OverlaySizeIdempotent | src/app/page.tsx:105-108 | Capping a capped size changes nothing. |
| Geometry.OverlaySizeExamples | src/app/page.tsx:105-108 | 200x50 stays 200x50; 400x200 becomes 200x100. |
| Gallery.InitialIsNumbered | src/app/page.tsx:23-28 | The initial gallery has four entries with ids 1 to 4 in order. |
| Gallery.Url | src/app/page.tsx:112-116 | The definition of the URL an image element is pointed at: a bundled image's path or an upload's data URL. It has no contract of its own. SelectedUrl carries it into the export. |
| Gallery.Append | src/app/page.tsx:89-92 | Adding an image grows the gallery by one and leaves the existing entries unchanged. The new entry's id is the old length + 1 and its source is the uploaded data URL. |
| Gallery.AppendKeepsNumbered | src/app/page.tsx:89-92 | If entry `i` carries id `i + 1` before an append, that still holds after it. |
| Gallery.NumberedIdsAreDistinct | src/app/page.tsx:23-28 | In such a gallery no two entries share an id. |
| Gallery.FindById | src/app/page.tsx:101 | The lookup finds an entry of the gallery that has the requested id. It finds nothing exactly when no entry has that id. |
| Gallery.FindInNumbered | src/app/page.tsx:101 | In a numbered gallery the lookup of `id` gives entry `id - 1` when `1 <= id <= length`, and nothing otherwise. |
| Gallery.AppendThenFind | src/app/page.tsx:89-101 | A newly added image is found under the id it was given. |
| Gallery.AppendKeepsLookups | src/app/page.tsx:89-101 | Adding an image does not change what an existing id finds. |
| NumberParse.NatToStringValue | src/app/page.tsx:151-152 | The decimal digits of a natural number denote that number. |
| NumberParse.ParseFloat | src/app/page.tsx:151-158 | The definition of `parseFloat`, with `None` for NaN. It gives a number only when the first non-space character is a digit, a sign or a point. ParseFloatOfInt, ParseFloatOfDecimal and ParseFloatSkipsWhiteSpace carry its other properties. |
| NumberParse.ParseFloatSkipsWhiteSpace | src/app/page.tsx:151-158 | Leading white space never changes what `parseFloat` reads. |
| NumberParse.ParseFloatOfInt | src/app/page.tsx:151-152 | `parseFloat` of a rendered integer gives that integer back. |
| NumberParse.ParseFloatOfDecimal | src/app/page.tsx:151-152 | `parseFloat` of `a.b` (digit strings) is its exact decimal value. |
| NumberParse.ParseFloatTwelve | src/app/page.tsx:151-152 | `parseFloat("12")` is 12. |
| NumberParse.ParseFloatMinusFive | src/app/page.tsx:151-152 | `parseFloat("-5")` is -5. |
| NumberParse.ParseFloatNaNExamples | src/app/page.tsx:151-152 | `""`, `"abc"` and `"-."` are NaN. |
| Transform.CaptureEnd | src/app/page.tsx:143-145 | The lazy group ends at the first `px)` after its start, with no line terminator and no earlier `px)` in between. When it finds no end, no `px)` can be reached from the start without crossing a line terminator. |
| Transform.MatchFrom | src/app/page.tsx:143-145 | The definition of the leftmost match of `open(.*?)px\)` from a position. A captured group holds no line terminator. When nothing matches, every occurrence of the opening literal from that position has no reachable `px)`. MatchFromSome, MatchIs and MatchFromSkips carry its other properties. |
| Transform.Match | src/app/page.tsx:143-145 | The definition of `s.match(/name\((.*?)px\)/)?.[1]`, the search from position 0. A group holds no line terminator. No match means that no occurrence of `name(` is followed by a reachable `px)`. MatchSome, MatchX and MatchY carry its other properties. |
| Transform.AxisOffset | src/app/page.tsx:142-152 | The definition of one axis of the offset. A non-zero offset comes from a captured group that `parseFloat` reads as exactly that number. MissingOrUnreadableAxis and ZeroText carry its other properties. |
| Transform.TransformOffset | src/app/page.tsx:139-153 | The definition of the offset a transform stands for, which ReadOffset is proved against. A non-zero offset needs a present transform that does not include `none`, and each non-zero axis needs a match on that axis. NoneMeansOrigin, OffsetOfTranslate and OffsetRoundTrip carry its other properties. |
| Transform.MatchFromSome | src/app/page.tsx:143-145 | A found group is the capture at some occurrence of the opening literal from the start position on. At that occurrence the lazy group ends; at every earlier occurrence it cannot. |
| Transform.MatchSome | src/app/page.tsx:143-145 | `s.match(/name\((.*?)px\)/)?.[1]`, when found, is the capture at the leftmost occurrence of `name(` whose lazy group can end. |
| Transform.CaptureEndOf | src/app/page.tsx:143-145 | A group of capturable text (no `)`, no line terminator) ends exactly at the `px)` that follows it. |
| Transform.MatchFromSkips | src/app/page.tsx:143-145 | The search for the leftmost match skips every position where `name(` does not start. |
| Transform.MatchIs | src/app/page.tsx:143-145 | When `name(` first occurs at `i` and is followed by capturable text and `px)`, the captured group is that text. |
| Transform.MatchX | src/app/page.tsx:142-143 | In `translateX(u px) translateY(v px)…` the X group is `u`. |
| Transform.MatchY | src/app/page.tsx:144-145 | In the same string the Y group is `v`, because no `translateY(` starts earlier. |
| Transform.LacksOExcludesNone | src/app/page.tsx:147 | A string without an `o` does not include `none`. |
| Transform.ReadOffset | src/app/page.tsx:139-153 | The step-by-step computation gives `TransformOffset` of the transform. It takes the captured texts with `'0'` for a missing or empty capture, resets both to `'0'` on `none`, and otherwise applies `parseFloat(..) \|\| 0`. |
| Transform.ZeroText | src/app/page.tsx:143-152 | The `'0'` fallback and an empty capture both read as 0. |
| Transform.NoneMeansOrigin | src/app/page.tsx:147-149 | Any transform that includes `none` gives the offset (0, 0). |
| Transform.MissingOrUnreadableAxis | src/app/page.tsx:142-152 | An axis whose `translate?(…px)` component is missing, or whose text `parseFloat` rejects, reads as 0. |
| Transform.OffsetOfTranslate | src/app/page.tsx:139-153 | `translateX(u px) translateY(v px)` followed by any text without an `o` gives (`parseFloat(u)`, `parseFloat(v)`), for numeric texts `u` and `v`. |
| Transform.OffsetRoundTrip | src/app/page.tsx:139-153 | A drag to whole-pixel (x, y), rendered as a transform and read back, gives (x, y). The rendering is JavaScript's only for magnitudes below 10^21. |
| Transform.OffsetExample | src/app/page.tsx:139-153 | `translateX(12px) translateY(-5px)` gives (12, -5). |
| Transform.OriginExamples | src/app/page.tsx:139-149 | `none` and an absent transform (no overlay element) give (0, 0). |
| Export.Dispatch | src/app/page.tsx:165-181 | `download` always gives a download of `receipt.png`. `share` gives the share sheet (`receipt.png`, `image/png`) exactly when sharing is available. Every other case is "not supported". Exactly one of the three happens. |
| Export.CanvasDimension | src/app/page.tsx:133-134 | A canvas dimension is at most 2^31 - 1, or else the default (300 for the width, 150 for the height). A size below 2^31 is kept truncated; a size from 2^31 up to 2^32 gives the default. |
| Export.CanvasFallbackExample | src/app/page.tsx:133-134 | A width of 3,000,000,000 leaves the canvas at its default width of 300; a height of 2147483647.5 is kept as 2147483647. |
| Export.ExportOf | src/app/page.tsx:132-188 | An export happens exactly when the base image loads, an overlay URL exists and the overlay loads. When it happens: the canvas takes the base image's display size as the canvas conversion stores it (truncated, and the default beyond 2^31 - 1); the base image is drawn at the origin at its display size; the overlay is drawn at the transform's offset at its display size; and the result goes to `Dispatch`. |
| Export.BaseCoversCanvas | src/app/page.tsx:133-137 | When an export happens there are two draws, and the first covers the canvas from the origin. |
| Session.Home.constructor | src/app/page.tsx:31-39 | The initial state is: the bundled preview, no gallery shown, no selection, the four initial entries, and both sizes {0, 0}. |
| Session.Home.FitStaysInContainer | src/app/page.tsx:61-73 | The stored base image size always lies within the container it was last fitted to, touches it, and keeps the image's aspect ratio. |
| Session.Home.HandleFileUpload | src/app/page.tsx:43-50 | A chosen file becomes the preview and opens the gallery. Nothing changes when no file was chosen. No other field changes. |
| Session.Home.OnPreviewLoaded | src/app/page.tsx:52-73 | With no container the state is unchanged, so `imageSize` stays {0, 0} until a fit happens. Otherwise `imageSize` becomes the letterbox fit, computed the page's way. No other field changes. |
| Session.Home.HandleExtraFileUpload | src/app/page.tsx:84-96 | A chosen file is appended to the gallery under id length + 1. The numbering invariant is kept and no other field changes. |
| Session.Home.HandleSelectionClick | src/app/page.tsx:98-102 | The clicked id becomes the selection. The entry found for it is returned, which happens exactly when `1 <= id <= length`. No other field changes. |
| Session.Home.OnSelectionLoaded | src/app/page.tsx:104-109 | The overlay's size becomes the capped size of the decoded image, so its height stays at most 100. No other field changes. |
| Session.Home.SelectedUrl | src/app/page.tsx:184-188 | The overlay image's URL is the selected source's URL, or `''` when no source is selected. |
| Session.Home.OverlayShown | src/app/page.tsx:216 | The definition of when the overlay is rendered: a truthy id whose entry has a non-empty URL. It is why the overlay element, and so a transform, exists. ExportNeedsOverlayShown and ProcessImage's precondition carry its properties. |
| Session.Home.ExportNeedsOverlayShown | src/app/page.tsx:184-188 | An export happens only while the overlay is on screen. |
| Session.Home.SelectedSource | src/app/page.tsx:120-122 | The selected source exists exactly when an id is selected and lies within the gallery. It is the entry with that id. |
| Session.Home.ProcessImage | src/app/page.tsx:124-192 | The export computed step by step is `ExportOf` of the current state. The state is only read. The overlay element's transform is present exactly when the overlay is rendered. |
| Session.Home.DownloadImages | src/app/page.tsx:194-196 | The download button exports exactly when both images load and a selected entry has a non-empty URL. What it exports goes to a download named `receipt.png`. |
| Session.Home.ShareImage | src/app/page.tsx:198-200 | The share button exports under the same condition. What it exports is shared when the platform can share, and reported as not supported otherwise. |
| Session.ExampleSession | src/app/page.tsx:43-196 | A full session runs as follows. A 1000x500 upload goes into a 476x300 container. Before a sticker is chosen, the export stalls. Sticker 1 (200x50) is then selected and dragged to (12, -5), and the download produces a 476x238 canvas with the photo at the origin and the sticker at (12, -5, 200x50). |

## Left out

- JSX rendering, styling, the `Switch` toggle and its `switchState`, the thumbnails and check marks (src/app/page.tsx:202-378): presentation only.
- `FileReader`, `Image` decoding and its timing, and `document.getElementById`: browser I/O. Their results come in as inputs: the data URL, the decoded intrinsic size, whether an image loads, and the overlay element's transform string.
- The `crossOrigin = 'anonymous'` settings and canvas tainting: the model assumes that a draw which takes place reads back.
- The pixels: `drawImage` and `toDataURL` are recorded as the list of draws and the canvas size, not as a raster.
- The body of the shared file and the `navigator.share` promise (its success and error logs). The model records the file's name and type only. The source builds the file from the data-URL text rather than from decoded PNG bytes.
- framer-motion's drag and its drag constraints: the transform string the drag produces is an input.
- IEEE-754 arithmetic: sizes and offsets are exact reals, so rounding, `-0`, NaN and Infinity in sizes are not modelled.
- NumberParse.ParseFloat: does not recognise the `Infinity` literal (JavaScript reads it as Infinity; the model reads it as NaN and so 0), does not round to the nearest double, and ignores exponent overflow.
- Transform.ReadOffset: the number-to-string-to-number round trip at src/app/page.tsx:151 and 157 is taken to give back the same number, as it does for finite doubles.
- Session.Home.OnPreviewLoaded and Session.Home.OnSelectionLoaded: require a positive intrinsic size. PNG and JPEG images have at least one pixel on each axis, and the page would divide by zero otherwise.
- The URLs of the bundled images, which the bundler assigns: the model calls them `preview` and `selection1` to `selection4`.
- Export.CanvasDimension: the canvas conversion of NaN or Infinity to 0 is not modelled, since sizes are finite reals here.
- NumberParse.IntToString: renders in plain digits at every magnitude, while JavaScript switches to exponent form from 10^21 on. So Transform.OffsetRoundTrip describes JavaScript's rendering only below that.
