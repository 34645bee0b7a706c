# Tesla meme editor: a Dafny model of the editor component

The editor component, `MemeEditor`, does four things:

- It shows a template image on a 400 x 400 fabric canvas.
- It lets the user stack text captions on that image.
- It saves the result as a PNG.
- On phones and tablets that offer the Web Share API it shares the PNG instead of saving it.

This project models that component in Dafny and proves what it does.

- `layout.dfy` (module `Layout`) covers the fit-and-centre arithmetic of the image-load callback. It uses exact `real` arithmetic.
- `scene.dfy` (module `Scene`) covers the mutable state:
  - a `Canvas` class stands for the fabric canvas: its fixed size and colour, its objects in paint order, the active object, the background image, and whether it was disposed;
  - an `Editor` class holds the component's React state (`canvas`, `text`) and the cleanup that the last effect run registered;
  - the effect that builds a canvas for each template becomes `RunEffect`;
  - the load callback becomes `OnImageLoaded`;
  - the caption button becomes `AddText`.
- A few client methods play out whole sessions. One has a stale image load arriving after the template changed. One has a failed load. One adds a blank caption. One stacks two captions.
- `text.dfy` (module `Text`) covers `String.prototype.trim`. It uses ECMAScript's full whitespace and line-terminator set.
- `timestamp.dfy` (module `Timestamp`) builds the export file name:
  - it takes `toISOString().slice(0, 19)`, replaces every colon with a hyphen, and wraps the result as `tesla-meme-….png`;
  - it also models `toISOString` itself, from date fields, for four-digit years.
- `export.dfy` (module `Export`) covers the export decision. One export becomes a trace of `Share` and `Download` actions. The trace depends on:
  - whether a canvas exists;
  - whether `navigator.share` exists;
  - the user agent, tested against `/iPhone|iPad|iPod|Android/i`;
  - how blob conversion settles;
  - how the share call settles.
- `wrappers.dfy` holds `Option`.

Some behaviours of the code are easy to misread. The model follows the code as written:

- **Share and download together.** When the share call rejects, the code has already called `navigator.share` and then also downloads the file. `MobileShares` proves exactly that trace. `NoDownloadOnlyAfterSuccessfulShare` states when no download happens: only when the share path was taken and both blob conversion and the share call were fulfilled.
- **Canvas size.** The code always builds a grey 400 x 400 canvas, whatever the device.
- **Stale loads.** The load callback has no check that its template is still the selected one. Each callback keeps the canvas its own effect run created, and the newer run has already disposed that canvas. So a late image lands on the disposed canvas, never on the current one (`OnImageLoaded`, `SupersededLoad`).
- **Export without a canvas.** When there is no canvas, `exportMeme` does nothing and reports nothing (`ExportMeme` gives the empty trace).

## Model

| member | source | states |
|---|---|---|
| Layout.Min | src/components/MemeEditor.tsx:31 | `Math.min`: the result is at most both arguments and equal to one of them |
| Layout.FitAndCentre | src/components/MemeEditor.tsx:29-37 | the placement of an `iw` x `ih` image on a `cw` x `ch` canvas: scale `min(cw/iw, ch/ih)`, left `(cw - iw*scale)/2`, top `(ch - ih*scale)/2`; its properties are the lemmas below |
| Layout.FitContains | src/components/MemeEditor.tsx:29-33 | with positive sizes the one scale is positive, the scaled image fits inside the canvas on both axes, and it fills the canvas exactly on at least one axis |
| Layout.FitCentres | src/components/MemeEditor.tsx:34-37 | `left` and `top` are not negative, and `2*left + iw*scale` and `2*top + ih*scale` equal the canvas width and height, so the margins on opposite sides are equal |
| Layout.FitIsLargest | src/components/MemeEditor.tsx:29-31 | every uniform scale that keeps the image inside the canvas is at most the chosen one |
| Layout.AspectPreserved | src/components/MemeEditor.tsx:33 | the drawn width-to-height ratio equals the image's own |
| Layout.SmallImagesAreUpscaled | src/components/MemeEditor.tsx:29-33 | an image smaller than the canvas on both axes gets a scale above 1 |
| Layout.LargeImagesAreDownscaled | src/components/MemeEditor.tsx:29-33 | an image larger than the canvas on some axis gets a scale below 1 |
| Text.TrimStart | src/components/MemeEditor.tsx:53 | the result is a suffix of the input, everything removed is whitespace, and the result does not start with whitespace |
| Text.TrimEnd | src/components/MemeEditor.tsx:53 | the result is a prefix of the input, everything removed is whitespace, and the result does not end with whitespace |
| Text.Trim | src/components/MemeEditor.tsx:53 | `trim()`: leading whitespace removed by `TrimStart`, then trailing whitespace by `TrimEnd`; what it gives is stated by the two lemmas below |
| Text.TrimIsInnerPiece | src/components/MemeEditor.tsx:53 | `trim()` gives a contiguous piece `s[i..j]` of the input with only whitespace before `i` and from `j` on, and the piece neither starts nor ends with whitespace |
| Text.TrimEmptyIffBlank | src/components/MemeEditor.tsx:53 | `text.trim()` is the empty, falsy, string exactly when every character of `text` is whitespace |
| Scene.Fit | src/components/MemeEditor.tsx:29-37 | the placement `FitAndCentre` gives an image of the given positive size on the 400 x 400 canvas |
| Scene.NewTextbox | src/components/MemeEditor.tsx:54-63 | the caption `addText` creates: the untrimmed text at left 50, top 50, width 300, fontSize 24, white fill, black stroke of width 1, centred |
| Scene.Canvas.constructor | src/components/MemeEditor.tsx:16-20 | a new canvas is 400 x 400 and grey, with no objects, no active object, no background, and not disposed |
| Scene.Canvas.Add | src/components/MemeEditor.tsx:64 | the object is appended at the end of the paint order, and nothing else changes |
| Scene.Canvas.SetActiveObject | src/components/MemeEditor.tsx:65 | the given object becomes the active one, and nothing else changes |
| Scene.Canvas.SetBackgroundImage | src/components/MemeEditor.tsx:39 | the background becomes the given image, and objects and selection are kept |
| Scene.Canvas.Dispose | src/components/MemeEditor.tsx:48 | the canvas is marked disposed, with no objects, no selection and no background |
| Scene.OnImageLoaded | src/components/MemeEditor.tsx:27-45 | a loaded image becomes the background of the canvas its own effect run created, placed by `FitAndCentre` on that canvas's 400 x 400; with no image the background is kept; only that canvas can change |
| Scene.Editor.constructor | src/components/MemeEditor.tsx:10-11 | the first render has no canvas, an empty input and no registered cleanup |
| Scene.Editor.SetText | src/components/MemeEditor.tsx:131 | typing replaces the pending text and changes nothing else |
| Scene.Editor.RunEffect | src/components/MemeEditor.tsx:13-50 | the previous run's canvas is disposed; without a mounted element nothing is created and no cleanup is registered; otherwise a fresh empty grey canvas becomes the editor's canvas, a load for the template is started on it, and its disposal is registered |
| Scene.Editor.Unmount | src/components/MemeEditor.tsx:47-49 | the registered cleanup disposes its canvas |
| Scene.Editor.AddText | src/components/MemeEditor.tsx:52-68 | with a canvas and a non-blank input, exactly one textbox is appended at the end: the untrimmed text at left 50, top 50, width 300, fontSize 24, white fill, black stroke of width 1, centred; earlier objects are unchanged, the new textbox is active and the input becomes `""`; otherwise neither the canvas nor the input changes |
| Scene.SupersededLoad | src/components/MemeEditor.tsx:13-50 | when the template changes during a load and the old load completes last, the editor shows the new template's image, fitted and centred, and the old canvas is disposed |
| Scene.FailedLoadStillEditable | src/components/MemeEditor.tsx:43-66 | after a failed load the canvas has no background, and a caption can still be added to it |
| Scene.BlankCaptionIgnored | src/components/MemeEditor.tsx:53-67 | a whitespace-only caption adds nothing and stays in the input |
| Scene.CaptionsStack | src/components/MemeEditor.tsx:52-68 | two captions are painted in the order they were added, and the second one is active |
| Timestamp.Prefix | src/components/MemeEditor.tsx:80 | `slice(0, n)` gives a prefix of length `n`, or the whole string when it is shorter |
| Timestamp.ReplaceColons | src/components/MemeEditor.tsx:81 | the length is kept, each `:` becomes `-`, every other character stays in place, and no colon remains |
| Timestamp.ExportFileName | src/components/MemeEditor.tsx:78-82 | the name contains no colon, starts with `tesla-meme-`, ends with `.png`, has the length of prefix, stamp and suffix together, and keeps every non-colon character of the first 19 in place |
| Timestamp.StampOf | src/components/MemeEditor.tsx:82 | between `tesla-meme-` and `.png` the name holds exactly the colon-free 19-character stamp |
| Timestamp.FileNameHasShape | src/components/MemeEditor.tsx:78-82 | for a well-formed ISO time stamp the name has 34 characters and the shape `tesla-meme-####-##-##T##-##-##.png` (`#` a digit) |
| Timestamp.FileNamesDistinguishSeconds | src/components/MemeEditor.tsx:78-82 | two well-formed time stamps that differ in their first 19 characters give different names |
| Timestamp.PadDigitsRoundTrip | src/components/MemeEditor.tsx:79 | zero padding to `w` digits is undone by reading the digits back, for numbers below 10^w |
| Timestamp.PadDigitsInjective | src/components/MemeEditor.tsx:79 | two numbers below 10^w with the same padded form are equal |
| Timestamp.DatePart | src/components/MemeEditor.tsx:79 | the date part has the shape `####-##-##` and holds the zero-padded year, month and day |
| Timestamp.TimePart | src/components/MemeEditor.tsx:79 | the time part has the shape `##:##:##` and holds the zero-padded hour, minute and second |
| Timestamp.ToIsoString | src/components/MemeEditor.tsx:79 | `toISOString` for a four-digit year has the shape `####-##-##T##:##:##.###Z`, starts with the date part, holds the time part at positions 11 to 18, and the zero-padded millisecond after the dot |
| Timestamp.SameStampSameSecond | src/components/MemeEditor.tsx:78-80 | equal first 19 characters of two printed dates mean the same date and time to the second |
| Timestamp.DistinctSecondsDistinctNames | src/components/MemeEditor.tsx:78-82 | exports at two instants that differ to the second get different file names |
| Export.LowerAsciiString | src/components/MemeEditor.tsx:86 | the length is kept and each character is lowered in place (ASCII letters only) |
| Export.ContainsIgnoringCase | src/components/MemeEditor.tsx:86 | the regular-expression search for one literal with the `i` flag: the literal starts here, ignoring ASCII case, or the search goes on from the next position |
| Export.ContainsIgnoringCaseIff | src/components/MemeEditor.tsx:86 | the position-by-position search succeeds exactly when some start position holds the literal, ignoring case |
| Export.IsMobileUserAgent | src/components/MemeEditor.tsx:86 | the user-agent test of the share path: one of iPhone, iPad, iPod and Android occurs in the user agent, ignoring ASCII case |
| Export.ContainsIgnoresCaseOfSubject | src/components/MemeEditor.tsx:86 | lowering the searched string does not change the outcome of a case-insensitive search |
| Export.MobileTestIgnoresCase | src/components/MemeEditor.tsx:86 | the user-agent test gives the same answer for a user agent and for its lower-case form |
| Export.NamingAPlatformIsMobile | src/components/MemeEditor.tsx:86 | any user agent that contains iPhone, iPad, iPod or Android, in any mix of upper and lower case, passes the test |
| Export.ExportMeme | src/components/MemeEditor.tsx:70-110 | there are no actions exactly when there is no canvas; there is at most one download; every download carries the data URL and the time-stamped name; any share comes first and attaches one `image/png` file of that name, titled "Tesla Meme" |
| Export.DesktopDownloads | src/components/MemeEditor.tsx:84-108 | with a canvas, no share API or a non-mobile user agent gives exactly one download and nothing else |
| Export.MobileShares | src/components/MemeEditor.tsx:88-105 | on a mobile user agent with a share API: a failed blob conversion gives one download; a rejected share gives the share and then one download; a fulfilled share gives the share alone |
| Export.NoDownloadOnlyAfterSuccessfulShare | src/components/MemeEditor.tsx:84-108 | with a canvas there is no download exactly when the share path was taken and both blob conversion and share were fulfilled |

## Left out

- Rendering is not modelled: `renderAll`, the pixels, and the PNG encoding done by `toDataURL`. The data URL is an opaque string parameter of `ExportMeme`, so `Rasterize` has no model of its own.
- Browser calls are reduced to their answers:
  - whether `navigator.share` exists and the user-agent string are parameters;
  - `fetch`, `Blob`, `new File` and the share call are outcomes (fulfilled or rejected);
  - promise scheduling and interleaving are reduced to events taken one at a time.
- The clock is a parameter. `ExportMeme` takes the `toISOString()` text. `ToIsoString` builds it from date fields that are already in UTC. Converting epoch milliseconds to a calendar date, and years outside 0 to 9999, are not modelled. `ExportFileName` itself accepts any string.
- `downloadFile` is only its `Download(href, fileName)` action. Creating, clicking and removing the anchor element is DOM plumbing.
- `console.error` and `console.log` are not modelled. The `.catch` of the image load only logs, so a failed load is the absence of an `OnImageLoaded` call.
- Layout.FitAndCentre: computes with exact reals, not IEEE doubles, and requires both image sizes to be positive. In JavaScript an image with exactly one zero side still gets a finite placement: for width 0 and height `h` the scale is `400/h`, left is 200 and top is 0, and symmetrically for height 0. Only an image with both sides zero gets an infinite scale and `NaN` offsets. Neither case is modelled.
- Scene.Canvas.Dispose: fabric's `dispose` is not part of this model. Releasing the objects, selection and background is the documented intent of disposal, not code that was read.
- Moving, resizing and editing a caption through fabric's own interaction are not modelled. Captions are values that `addText` creates.
- `setActiveObject` is given the new object's position, since the object just added is always the last one.
- The user-agent test uses ASCII case-insensitive search over the four literals. This agrees with the `i` flag of a non-Unicode regular expression for these letters.
- Strings are sequences of Unicode scalar values, not UTF-16 code units.
- The "Back to Templates" button reloads the page. That is page-level I/O and is not modelled. Unmounting is modelled by `Unmount`.
- src/components/TemplateGallery.tsx and src/App.tsx are not part of this model: they hold a static list of templates and a switch between two views.
