# PWA kit packaging, modelled in Dafny

ManifestPWABuilder is a browser app for editing a Progressive Web App
manifest and generating its icon. When the user asks for the "PWA kit", the
app puts a ZIP archive together and saves it. Into the archive go
`manifest.json`, written from a cleaned copy of the edited manifest, and,
when an icon was generated, an `icons/` folder holding the icon resized to
192 and 512 pixels. Each size is stored twice: once as the standard icon
and once as the maskable one.

This project models that packaging core:

- **Types** (`types.dfy`): the manifest record and its entries (icons,
  screenshots, related applications). The string-literal unions become
  enumerations, each with its JSON literal and a parser that inverts it.
- **ManifestHelpers** (`manifest_helpers.dfy`):
  - the initial manifest the form starts from;
  - the store category list, proved to be 27 distinct lower-case words in
    strict alphabetical order.
- **JsText** (`js_text.dfy`):
  - `String.prototype.trim` over the ECMAScript white-space and
    line-terminator characters;
  - the decimal reading and writing used to interpret a `sizes` value such
    as "192x192".
- **JsZip** (`js_zip.dfy`): the archive object as a class.
  - A map from path to entry, plus the order in which paths were first
    added.
  - `file` adds an entry, or replaces one in place.
  - `folder` adds a directory entry with a trailing "/" and returns the
    prefix its files are written under.
- **ZipUtils** (`zip_utils.dfy`):
  - `downloadPwaKit`: the screenshot filter; the icon list replaced by four
    fixed entries when the icon string is truthy; the manifest written
    first; then the folder and the sequential resizes, where the first
    rejected resize stops the icon writes and the manifest is kept; the
    saved file name `<short_name or "pwa">-kit.zip`.
  - `b64toBlob`: the chunking loop, proved to split the decoded bytes into
    `ceil(n / sliceSize)` chunks that concatenate back to the bytes.
  - `resizeImage` is a parameter, a function from (source, width, height)
    to either an image or an error.
- **App** (`app.dfy`): the component state the download uses.
  - `handleIconGenerated` stores the icon.
  - `handleDownload` refuses with an alert unless name, short name and
    description are all non-empty, and otherwise packages the kit.

The main results:

- Every icon entry the cleaned manifest lists resolves to an archive file
  holding the resize at the size the entry declares, when both resizes
  succeed.
- When a resize fails, exactly the entries before the failure resolve, and
  the others name files that are not in the archive.
- The screenshot filter keeps exactly the entries whose `src` contains a
  non-white-space character, in order and with their multiplicities. It is
  idempotent, and so is the whole clean-up.
- A `sizes` string written from a width and a height reads back as them.

`JSON.stringify(_, null, 2)` is a parameter `stringify` as well: the
archive's `manifest.json` entry is `stringify` applied to the cleaned
manifest.

## Model

| member | source | states |
|---|---|---|
| Types.Display.Literal | types.ts:6 | definition: the JSON literal of each display mode |
| Types.Orientation.Literal | types.ts:9 | definition: the JSON literal of each orientation |
| Types.Dir.Literal | types.ts:18 | definition: the JSON literal of each text direction |
| Types.Purpose.Literal | types.ts:25 | definition: the JSON literal of each icon purpose |
| Types.FormFactor.Literal | types.ts:32 | definition: the JSON literal of each screenshot form factor |
| Types.ImageSize.Literal | types.ts:42 | definition: the literals "1K", "2K", "4K" |
| Types.DisplayFromLiteral | types.ts:6 | each display literal reads back as its enumeration value and nothing else does |
| Types.OrientationFromLiteral | types.ts:9 | the same for the orientation literals |
| Types.DirFromLiteral | types.ts:18 | the same for the text-direction literals |
| Types.PurposeFromLiteral | types.ts:25 | the same for the icon purpose literals |
| Types.FormFactorFromLiteral | types.ts:32 | the same for the screenshot form factors |
| Types.ImageSizeFromLiteral | types.ts:42 | the same for the image sizes "1K", "2K", "4K" |
| JsText.IsJsWhitespace | utils/zipUtils.ts:63 | definition: the characters `trim()` strips, ECMAScript's WhiteSpace and LineTerminator code points |
| JsText.Trim | utils/zipUtils.ts:63 | definition: `trim()`, stripping leading and then trailing white space; its properties are in the rows below |
| JsText.TrimStart | utils/zipUtils.ts:63 | the result is a suffix, everything dropped is white space, and it does not start with white space |
| JsText.TrimEnd | utils/zipUtils.ts:63 | the result is a prefix, everything dropped is white space, and it does not end with white space |
| JsText.TrimEmptyIffAllWhitespace | utils/zipUtils.ts:63 | `trim()` gives "" exactly when every character is white space |
| JsText.TrimIdempotent | utils/zipUtils.ts:63 | trimming twice is trimming once |
| JsText.DigitChar | utils/zipUtils.ts:71 | the digit character of a value below ten, whose code is '0' plus that value |
| JsText.IsDigit | utils/zipUtils.ts:71 | definition: the characters '0' to '9' |
| JsText.DigitsValue | utils/zipUtils.ts:71 | definition: the number a digit string denotes, most significant digit first |
| JsText.DecimalString | utils/zipUtils.ts:71 | the decimal text of a number is non-empty digits without a leading zero |
| JsText.ParseDecimal | utils/zipUtils.ts:71 | reading decimal text succeeds exactly on non-empty digit strings |
| JsText.ParseDecimalString | utils/zipUtils.ts:71 | decimal text reads back as the number it was written from |
| ManifestHelpers.InitialManifestDefaults | utils/manifestHelpers.ts:3-19 | the initial manifest's field values: empty name, short name and description, "/" start URL and scope, standalone, any orientation, no icons, screenshots or categories, "en", "ltr", no related-app preference |
| ManifestHelpers.LexLess | utils/manifestHelpers.ts:21-26 | definition: the string order in which the categories are listed |
| ManifestHelpers.StrictlySorted | utils/manifestHelpers.ts:21-26 | definition: every entry sorts strictly before every later one |
| ManifestHelpers.IsLowerCaseWord | utils/manifestHelpers.ts:21-26 | definition: made of the letters a to z only |
| Wrappers.NoDuplicates | utils/manifestHelpers.ts:21-26 | definition: no entry of a list occurs twice; used for the categories and for the archive order |
| ManifestHelpers.LexLessIrreflexive | utils/manifestHelpers.ts:21-26 | no string sorts before itself |
| ManifestHelpers.LexLessTransitive | utils/manifestHelpers.ts:21-26 | the string order is transitive |
| ManifestHelpers.NeighboursSortedIsSorted | utils/manifestHelpers.ts:21-26 | a list in which each entry sorts before the next is strictly sorted |
| ManifestHelpers.SortedHasNoDuplicates | utils/manifestHelpers.ts:21-26 | a strictly sorted list has no repeated entry |
| ManifestHelpers.CategoriesLowerCase | utils/manifestHelpers.ts:21-26 | every category is made of the letters a to z |
| ManifestHelpers.CategoriesNeighboursSorted | utils/manifestHelpers.ts:21-26 | each category sorts strictly before the next |
| ManifestHelpers.CategoriesWellFormed | utils/manifestHelpers.ts:21-26 | 27 lower-case categories, strictly alphabetical and pairwise distinct |
| JsZip.WellFormed | utils/zipUtils.ts:96-124 | definition: the archive invariant, each path of the entry map listed exactly once in the insertion order |
| JsZip.WithTrailingSlash | utils/zipUtils.ts:100 | the folder path ends in "/" and is the name, or the name with "/" appended |
| JsZip.WithFile | utils/zipUtils.ts:96 | writing a file sets that path's entry and leaves every other entry as it was; a new path goes last in the order, an existing path keeps its place; a well-formed archive stays well formed |
| JsZip.WithFolder | utils/zipUtils.ts:100 | a folder adds its directory entry last unless that entry is already present, in which case nothing changes; well-formedness is kept |
| JsZip.Zip.constructor | utils/zipUtils.ts:55 | a new archive is empty and well formed |
| JsZip.Zip.File | utils/zipUtils.ts:96 | the object's state after `file` is `WithFile` of its state before, and stays well formed |
| JsZip.Zip.Folder | utils/zipUtils.ts:100 | the object's state after `folder` is `WithFolder` of its state before; the result is the "/"-terminated prefix its files are written under |
| JsZip.Zip.Snapshot | utils/zipUtils.ts:124 | definition: the abstraction from the object's fields to the archive value it packs (its entries and order, well formed by the class invariant) |
| ZipUtils.KeepScreenshot | utils/zipUtils.ts:63 | definition: the filter test, a truthy `src` whose trimmed text is non-empty |
| ZipUtils.KeepScreenshotIff | utils/zipUtils.ts:63 | a screenshot is kept exactly when its `src` has a non-white-space character |
| ZipUtils.Filter | utils/zipUtils.ts:62-64 | the filter never lengthens the list |
| ZipUtils.FilterExact | utils/zipUtils.ts:62-64 | kept entries pass the test and come from the input, and every passing input entry is kept |
| ZipUtils.FilterAppend | utils/zipUtils.ts:63 | filtering a concatenation concatenates the filtered parts, so the order is kept |
| ZipUtils.FilterSingleton | utils/zipUtils.ts:63 | a single entry is kept exactly when it passes the test |
| ZipUtils.FilterCount | utils/zipUtils.ts:63 | a kept entry occurs as often as in the input, and a dropped one not at all |
| ZipUtils.FilterAllKept | utils/zipUtils.ts:63 | a list with nothing to drop comes back unchanged |
| ZipUtils.FilterIdempotent | utils/zipUtils.ts:63 | filtering twice is filtering once |
| ZipUtils.Normalize | utils/zipUtils.ts:59-94 | the cleaned copy differs from the manifest in its screenshots and icons only |
| ZipUtils.NormalizeScreenshots | utils/zipUtils.ts:62-64 | the cleaned screenshots are exactly the kept input entries with their fields untouched, and the list is unchanged when everything passes |
| ZipUtils.NormalizeIcons | utils/zipUtils.ts:67-94 | a truthy icon string replaces the icons with the four fixed entries; otherwise they pass through |
| ZipUtils.NormalizeIdempotent | utils/zipUtils.ts:59-94 | cleaning a cleaned manifest again changes nothing |
| ZipUtils.SizesString | utils/zipUtils.ts:71 | definition: the "WxH" text of a width and a height |
| ZipUtils.ParseSizes | utils/zipUtils.ts:71 | definition: reading "WxH" text as a width and a height, failing on anything else |
| ZipUtils.IndexOf | utils/zipUtils.ts:71 | the position of the first occurrence of a character, or the length when there is none |
| ZipUtils.ParseSizesString | utils/zipUtils.ts:71 | a "WxH" sizes value reads back as its width and height |
| ZipUtils.FixedSizesRead | utils/zipUtils.ts:71-89 | "192x192" and "512x512" read as 192 and 512 pixel squares |
| ZipUtils.ArchivePath | utils/zipUtils.ts:70-88 | definition: the archive path a manifest `src` names, the text after a leading "./" |
| ZipUtils.FixedIconPaths | utils/zipUtils.ts:70-88 | the four fixed `src` values name the four icon files of the archive |
| ZipUtils.IconFilePaths | utils/zipUtils.ts:96-114 | the folder "icons" and its file names give the six archive paths, which are pairwise distinct |
| ZipUtils.IconTruthy | utils/zipUtils.ts:67 | definition: the `if (iconBase64)` test, true for a non-null, non-empty string |
| ZipUtils.FixedIcons | utils/zipUtils.ts:68-93 | definition: the four fixed icon entries, in source order; described in the next row |
| ZipUtils.FixedIconsDescribed | utils/zipUtils.ts:68-93 | four PNG entries; two "any" and two "maskable"; declaring 192, 512, 192 and 512 pixels; pointing to the matching files |
| ZipUtils.ExactSize | utils/zipUtils.ts:33-35 | definition: the assumption that a successful resize has the requested width and height, since the canvas is created at that size |
| ZipUtils.Resolves | utils/zipUtils.ts:68-114 | definition: an icon entry resolves when its declared size reads as a width and height, its `src` names an archive file, and that file holds the base64 resize of the icon at that size |
| ZipUtils.ResolvedIconHasDeclaredSize | utils/zipUtils.ts:24-52 | a corollary of the definitions: with a resizer assumed to draw at the requested size, an icon entry that resolves names an image of its declared size |
| ZipUtils.KitFileName | utils/zipUtils.ts:128 | the saved name ends in "-kit.zip" after the short name, or after "pwa" when the short name is empty |
| ZipUtils.NoIconResolves | utils/zipUtils.ts:104 | when the first resize fails, no fixed icon entry names a file in the archive |
| ZipUtils.OnlyFirstIconResolves | utils/zipUtils.ts:104-108 | when only the second resize fails, the first entry resolves and the other three dangle |
| ZipUtils.AllIconsResolve | utils/zipUtils.ts:104-114 | when both resizes succeed, all four entries resolve to the resize at their declared size |
| ZipUtils.IconArchive | utils/zipUtils.ts:99-114 | definition: the archive after the icon block: the "icons" folder, then the 192 file, then the 512 and the two maskable files, cut short at the first rejected resize |
| ZipUtils.IconError | utils/zipUtils.ts:103-118 | definition: the error the `catch` receives: that of the first rejected resize, if any |
| ZipUtils.KitArchive | utils/zipUtils.ts:54-124 | definition: the packed archive: `manifest.json` from the cleaned copy, then the icon block when the icon string is truthy |
| ZipUtils.KitIconError | utils/zipUtils.ts:99-118 | definition: the caught error, none without a truthy icon string |
| ZipUtils.KitArchiveManifest | utils/zipUtils.ts:59-96 | every packed kit is well formed, `manifest.json` is its first path, and that entry is the text of the cleaned copy, not base64 |
| ZipUtils.IconArchiveKeepsOthers | utils/zipUtils.ts:99-121 | the icon block keeps the archive well formed, only appends to its order, and leaves every entry other than the folder and the four icon files as it was |
| ZipUtils.KitIconsFolderIff | utils/zipUtils.ts:99-100 | the kit has the "icons/" folder exactly when the icon string is truthy, and an error is caught only when it is |
| ZipUtils.KitWithoutIcon | utils/zipUtils.ts:96-99 | without a truthy icon the kit holds `manifest.json` alone and nothing is caught |
| ZipUtils.KitFirstResizeFails | utils/zipUtils.ts:100-118 | the 192 pixel resize rejects: the kit is the manifest and the empty folder, that error is caught, and no fixed icon entry names a file |
| ZipUtils.KitSecondResizeFails | utils/zipUtils.ts:100-118 | the 512 pixel resize rejects: the kit is the manifest, the folder and the 192 pixel file, that error is caught, the first icon entry resolves and the other three dangle |
| ZipUtils.KitAllResized | utils/zipUtils.ts:100-114 | both resizes succeed: the manifest, the folder and the four files in the order written, the maskable files holding the same images as the standard ones; nothing is caught; every icon entry resolves |
| ZipUtils.FourIconFiles | utils/zipUtils.ts:105-114 | the four icon writes append their paths in order and keep every earlier entry |
| ZipUtils.DownloadPwaKit | utils/zipUtils.ts:54-129 | what is saved is the kit archive under the kit file name, and the error returned is the one the icon block catches; the `Kit` lemmas above say what that archive holds in each case |
| ZipUtils.AddIcons | utils/zipUtils.ts:99-121 | the archive after the icon block is `IconArchive` of the archive before: the folder, then the files in order until the first rejected resize, whose error is returned |
| ZipUtils.ToUint8 | utils/zipUtils.ts:16 | definition: the element a `Uint8Array` stores for a number, its value modulo 256 |
| ZipUtils.CharCodes | utils/zipUtils.ts:13-16 | definition: the reference bytes, one per character, its code modulo 256 as `Uint8Array` stores it; `B64ToBlob` is proved against it |
| ZipUtils.Concat | utils/zipUtils.ts:17-20 | definition: the bytes of a blob, its chunks one after the other |
| ZipUtils.CeilDiv | utils/zipUtils.ts:10 | definition: the number of passes of the chunking loop, counted by repeated subtraction |
| ZipUtils.CeilDivIsCeiling | utils/zipUtils.ts:10 | the chunk count is the length divided by the slice size, rounded up |
| ZipUtils.B64ToBlob | utils/zipUtils.ts:6-21 | the blob has the content type; its chunks concatenate to the decoded character codes; there are ceil(n / sliceSize) chunks, none empty, all full except the last |
| ZipUtils.CharCodesAppend | utils/zipUtils.ts:13-16 | the bytes of a concatenation are the concatenated bytes |
| App.EssentialDetailsFilled | App.tsx:39 | definition: the download guard, name, short name and description all non-empty, untrimmed |
| App.InitialManifestNormalized | utils/manifestHelpers.ts:13-15 | the starting manifest packaged without an icon keeps its empty icon and screenshot lists and is otherwise unchanged |
| App.WhitespaceDetailsPass | App.tsx:39 | details made only of white space pass the download guard, although they trim to empty |
| App.App.constructor | App.tsx:9-11 | the first state is the initial manifest, no key and no icon, and that state fails the download guard |
| App.App.HandleIconGenerated | App.tsx:34-36 | the icon is stored and nothing else changes |
| App.App.HandleDownload | App.tsx:38-44 | refused with the alert exactly when a required detail is empty; otherwise the kit of the current manifest and icon: well formed, the cleaned manifest as `manifest.json`, the icons folder present exactly when the icon is truthy, an error caught only with an icon |

## Definitions

The data model and the constants are not functions, so they have no row
above. Each is listed here with the source lines it models:

- `Types.Manifest` (types.ts:1-19), `Types.Icon` (types.ts:21-26),
  `Types.Screenshot` (types.ts:28-34), `Types.RelatedApplication`
  (types.ts:36-40) and `Types.GeneratedImage` (types.ts:44-47). Each is a
  datatype with one field per interface field, and an `Option` for each
  `?:` field. The literal unions are the enumerations `Display`,
  `Orientation`, `Dir`, `Purpose`, `FormFactor` and `ImageSize` (types.ts:42).
- `ManifestHelpers.InitialManifest` (utils/manifestHelpers.ts:3-19): the
  starting manifest, field for field. `InitialManifestDefaults` states its
  values.
- `ManifestHelpers.PwabuilderCategories` (utils/manifestHelpers.ts:21-26):
  the 27 categories as written. `CategoriesWellFormed` states their shape.
- `ZipUtils.ManifestPath`, `IconsDir`, `Icon192Name`, `Icon512Name`,
  `Maskable192Name` and `Maskable512Name` (utils/zipUtils.ts:96-114): the
  archive names the packaging code writes. `IconFilePaths` states that the
  six paths are distinct.
- `App.MissingDetailsAlert` (App.tsx:40): the text of the refusal alert.
  `HandleDownload` returns it.
- `App.DownloadOutcome` (App.tsx:38-44): what one click on the download
  button does, either the refusal with its alert text or the packaged kit
  with the error the icon block caught.
- `JsZip.ZipEntry` and `JsZip.Archive` (utils/zipUtils.ts:55, 96-124): the
  `files` of a JSZip object. Each entry is a file, whose data string is
  flagged when it was written with `{ base64: true }`, or a directory. An
  archive is the entries by path together with the order their paths were
  first added.
- `ZipUtils.ResizeError`, `ZipUtils.Png` and `ZipUtils.Resizer`
  (utils/zipUtils.ts:24-52): the interface of `resizeImage`. `ResizeError`
  covers the two rejections: a missing 2d context (line 38) and an image
  that fails to load (line 50). `Png` is the resolved base64 text, with the
  canvas size (lines 34-35) kept alongside. `Resizer` is the function type
  of the `resize` parameter.
- `ZipUtils.IconFiles` (utils/zipUtils.ts:105-114): the four icon paths in
  the order they are written. `Icon192Path`, `Icon512Path`,
  `Maskable192Path` and `Maskable512Path` (the same lines) are the
  folder prefix joined to each file name.
- `ZipUtils.SavedKit` (utils/zipUtils.ts:124-128): what `saveAs` receives,
  the packed archive and the file name.
- `ZipUtils.Blob` (utils/zipUtils.ts:20): the value `new Blob(byteArrays,
  { type: contentType })` builds, its byte chunks and its type.

## Left out

- The canvas work of `resizeImage` (image decoding, smoothing, PNG encoding). It is the parameter `resize`. The model does not rely on its output being exact-size, except in `ResolvedIconHasDeclaredSize`, which assumes this explicitly.
- Asynchrony. The awaits run in sequence, since a rejection stops the rest of the `try`. Each resize is modelled as a deterministic function of its arguments.
- The text `JSON.stringify` produces. It is the parameter `stringify`.
- What `zip.generateAsync` does beyond packing the entries: compression, the ZIP byte format, and base64 decoding of the icon data. An entry records its data and its base64 flag.
- `saveAs` and the download itself: `DownloadPwaKit` returns what would be saved.
- `console.error` and the alert inside the `catch`: the caught error is returned instead.
- The alert of `handleDownload`: its text is part of the result.
- `atob` in `b64toBlob`: `B64ToBlob` starts from the decoded string.
- The content-type normalisation of the `Blob` constructor.
- Characters: `charCodeAt` yields UTF-16 code units, and the model uses Dafny's characters. They agree on the single-byte characters `atob` returns.
- B64ToBlob: `sliceSize` is a positive whole number, where the source takes any JavaScript `number`. With 0 the source's loop does not terminate on a non-empty string, and returns an empty blob on an empty one; the model does not cover that empty case. Negative sizes are not modelled, nor fractional ones: `slice` truncates its bounds, so chunks can be empty or shorter than `sliceSize` (0.5 alternates empty and one-character chunks). The defaults, `contentType = ''` and `sliceSize = 512`, are not modelled: callers pass both.
- The `Array.isArray` guard around the screenshot filter. Under the declared types it always holds.
- JSZip's `createFolders` option, on by default, which makes a write under a missing folder add that folder's entry first. It changes nothing here, because `folder("icons")` always runs before any write under "icons/". Also left out is JSZip's handling of paths containing "..".
- Screenshot: the `label` field is called `labelText`, since `label` is a Dafny keyword. The `type` fields are called `mimeType`.
- The API-key check (`window.aistudio`, the `useEffect` on mount, `handleApiKeySelect`). The `apiKeySet` field is kept but never set by the modelled operations.
- The Gemini service, the form and generator components, and the rendering. They are not part of this model.
- Filter: its own contract states only the length bound. The exact content, order and multiplicity are proved in `FilterExact`, `FilterAppend`, `FilterSingleton` and `FilterCount`.
