/** The packaging step (utils/zipUtils.ts): clean up the manifest, write it
    and the resized icons into an archive, and hand the archive to the
    browser's save mechanism under the kit's file name. */
module ZipUtils {
  import opened Wrappers
  import opened Types
  import opened JsText
  import opened JsZip

  // ---------------------------------------------------------------------
  // The resizer

  /** Why `resizeImage` rejects: the canvas had no 2d context, or the
      source image failed to load. */
  datatype ResizeError = CanvasContextUnavailable | ImageLoadFailed

  /** What `resizeImage` resolves with: the base64 text of the PNG that the
      canvas encoded, and the pixel size of that canvas. */
  datatype Png = Png(base64: string, width: nat, height: nat)

  /** `resizeImage(base64Str, width, height)`: the canvas work is outside
      the model, so the resizer is a parameter. As a function it is
      deterministic: the same source and size give the same image. */
  type Resizer = (string, nat, nat) -> Result<Png, ResizeError>

  /** The canvas is created at exactly the requested size, so a successful
      resize has exactly that size. */
  ghost predicate ExactSize(resize: Resizer) {
    forall src: string, w: nat, h: nat :: resize(src, w, h).Ok? ==>
      resize(src, w, h).value.width == w && resize(src, w, h).value.height == h
  }

  // ---------------------------------------------------------------------
  // Manifest normalisation

  /** The icon argument is `string | null`; it is truthy unless it is
      `null` or the empty string. */
  predicate IconTruthy(icon: Option<string>) {
    icon.Some? && icon.value != ""
  }

  /** The screenshot filter's test `s.src && s.src.trim() !== ''`. */
  predicate KeepScreenshot(s: Screenshot) {
    s.src != "" && Trim(s.src) != ""
  }

  /** A screenshot is kept exactly when its `src` has a character that is
      not whitespace. */
  lemma KeepScreenshotIff(s: Screenshot)
    ensures KeepScreenshot(s) <==> exists i :: 0 <= i < |s.src| && !IsJsWhitespace(s.src[i])
  {
    TrimEmptyIffAllWhitespace(s.src);
  }

  /** `Array.prototype.filter`: the entries the callback accepts, in
      order. */
  function Filter<T>(keep: T -> bool, xs: seq<T>): (r: seq<T>)
    ensures |r| <= |xs|
  {
    if xs == [] then []
    else (if keep(xs[0]) then [xs[0]] else []) + Filter(keep, xs[1..])
  }

  /** The kept entries all pass the test, are all among the input's, and
      every input entry that passes is kept. */
  lemma {:induction false} FilterExact<T>(keep: T -> bool, xs: seq<T>)
    ensures forall i :: 0 <= i < |Filter(keep, xs)| ==> keep(Filter(keep, xs)[i])
    ensures forall x :: x in Filter(keep, xs) ==> x in xs
    ensures forall x :: x in xs && keep(x) ==> x in Filter(keep, xs)
  {
    if xs != [] {
      FilterExact(keep, xs[1..]);
      var r := Filter(keep, xs);
      var rest := Filter(keep, xs[1..]);
      assert r == (if keep(xs[0]) then [xs[0]] else []) + rest;
      forall x | x in xs ensures x == xs[0] || x in xs[1..] {
        var i :| 0 <= i < |xs| && xs[i] == x;
        if i > 0 { assert xs[1..][i - 1] == x; }
      }
    }
  }

  /** The filter works entry by entry, in order: filtering a concatenation
      concatenates the filtered parts. With `FilterSingleton` this says the
      result is exactly the kept entries in their original order. */
  lemma {:induction false} FilterAppend<T>(keep: T -> bool, a: seq<T>, b: seq<T>)
    ensures Filter(keep, a + b) == Filter(keep, a) + Filter(keep, b)
  {
    if a == [] {
      assert a + b == b;
    } else {
      var head := if keep(a[0]) then [a[0]] else [];
      assert (a + b)[0] == a[0];
      assert (a + b)[1..] == a[1..] + b;
      FilterAppend(keep, a[1..], b);
      calc {
        Filter(keep, a + b);
        head + Filter(keep, a[1..] + b);
        head + (Filter(keep, a[1..]) + Filter(keep, b));
        (head + Filter(keep, a[1..])) + Filter(keep, b);
        Filter(keep, a) + Filter(keep, b);
      }
    }
  }

  lemma FilterSingleton<T>(keep: T -> bool, x: T)
    ensures Filter(keep, [x]) == if keep(x) then [x] else []
  {
    assert [x][1..] == [];
  }

  /** Each kept entry appears as often as in the input; each dropped entry
      not at all. */
  lemma {:induction false} FilterCount<T>(keep: T -> bool, xs: seq<T>, x: T)
    ensures multiset(Filter(keep, xs))[x] == if keep(x) then multiset(xs)[x] else 0
  {
    if xs != [] {
      FilterCount(keep, xs[1..], x);
      assert xs == [xs[0]] + xs[1..];
    }
  }

  /** A list with nothing to drop comes back unchanged. */
  lemma {:induction false} FilterAllKept<T>(keep: T -> bool, xs: seq<T>)
    requires forall i :: 0 <= i < |xs| ==> keep(xs[i])
    ensures Filter(keep, xs) == xs
  {
    if xs != [] {
      FilterAllKept(keep, xs[1..]);
      assert xs == [xs[0]] + xs[1..];
    }
  }

  /** Filtering an already-filtered list changes nothing. */
  lemma FilterIdempotent<T>(keep: T -> bool, xs: seq<T>)
    ensures Filter(keep, Filter(keep, xs)) == Filter(keep, xs)
  {
    FilterExact(keep, xs);
    FilterAllKept(keep, Filter(keep, xs));
  }

  /** The four icon entries that replace `icons` when an icon is supplied. */
  function FixedIcons(): seq<Icon> {
    [ Icon("./" + Icon192Path, "192x192", "image/png", Some(AnyPurpose)),
      Icon("./" + Icon512Path, "512x512", "image/png", Some(AnyPurpose)),
      Icon("./" + Maskable192Path, "192x192", "image/png", Some(Maskable)),
      Icon("./" + Maskable512Path, "512x512", "image/png", Some(Maskable)) ]
  }

  /** The cleaned copy `cleanManifest`: screenshots filtered, icons replaced
      when the icon string is truthy. */
  function Normalize(m: Manifest, icon: Option<string>): (r: Manifest)
    ensures r.(screenshots := m.screenshots, icons := m.icons) == m
  {
    var withScreenshots := m.(screenshots := Filter(KeepScreenshot, m.screenshots));
    if IconTruthy(icon) then withScreenshots.(icons := FixedIcons()) else withScreenshots
  }

  /** The cleaned screenshots are exactly the input's kept entries, in
      order, with their field values untouched. */
  lemma NormalizeScreenshots(m: Manifest, icon: Option<string>)
    ensures forall i :: 0 <= i < |Normalize(m, icon).screenshots| ==> Normalize(m, icon).screenshots[i] in m.screenshots
    ensures forall s :: s in m.screenshots && KeepScreenshot(s) ==> s in Normalize(m, icon).screenshots
    ensures forall s :: s in Normalize(m, icon).screenshots ==> KeepScreenshot(s)
    ensures (forall i :: 0 <= i < |m.screenshots| ==> KeepScreenshot(m.screenshots[i])) ==>
              Normalize(m, icon).screenshots == m.screenshots
  {
    NormalizedScreenshotsFiltered(m, icon);
    FilterExact(KeepScreenshot, m.screenshots);
    if forall i :: 0 <= i < |m.screenshots| ==> KeepScreenshot(m.screenshots[i]) {
      FilterAllKept(KeepScreenshot, m.screenshots);
    }
  }

  /** The cleaned screenshots are the filtered input list. */
  lemma NormalizedScreenshotsFiltered(m: Manifest, icon: Option<string>)
    ensures Normalize(m, icon).screenshots == Filter(KeepScreenshot, m.screenshots)
  {
  }

  /** With a truthy icon string the icon list is the fixed four entries
      whatever the input held; otherwise it passes through unchanged. */
  lemma NormalizeIcons(m: Manifest, icon: Option<string>)
    ensures IconTruthy(icon) ==> Normalize(m, icon).icons == FixedIcons() && |Normalize(m, icon).icons| == 4
    ensures !IconTruthy(icon) ==> Normalize(m, icon).icons == m.icons
  {
  }

  /** Cleaning a cleaned manifest again with the same icon changes nothing. */
  lemma NormalizeIdempotent(m: Manifest, icon: Option<string>)
    ensures Normalize(Normalize(m, icon), icon) == Normalize(m, icon)
  {
    FilterIdempotent(KeepScreenshot, m.screenshots);
  }

  // ---------------------------------------------------------------------
  // Icon sizes and paths

  /** The `sizes` text of a square or rectangular icon, "WxH". */
  function SizesString(w: nat, h: nat): string {
    DecimalString(w) + "x" + DecimalString(h)
  }

  /** The position of the first `c` in `s`, or `|s|` when there is none. */
  function IndexOf(s: string, c: char): (k: nat)
    ensures k <= |s|
    ensures k < |s| ==> s[k] == c
    ensures forall i :: 0 <= i < k ==> s[i] != c
  {
    if s == [] || s[0] == c then 0 else 1 + IndexOf(s[1..], c)
  }

  /** Reads a "WxH" sizes value as a width and a height. */
  function ParseSizes(s: string): Option<(nat, nat)> {
    var k := IndexOf(s, 'x');
    if k == |s| then None
    else
      match (ParseDecimal(s[..k]), ParseDecimal(s[k + 1..]))
      case (Some(w), Some(h)) => Some((w, h))
      case _ => None
  }

  /** A sizes value written from a width and height reads back as them. */
  lemma ParseSizesString(w: nat, h: nat)
    ensures ParseSizes(SizesString(w, h)) == Some((w, h))
  {
    var dw, dh := DecimalString(w), DecimalString(h);
    var s := SizesString(w, h);
    assert s[|dw|] == 'x';
    assert forall i :: 0 <= i < |dw| ==> s[i] == dw[i] && s[i] != 'x';
    assert IndexOf(s, 'x') == |dw|;
    assert s[..|dw|] == dw && s[|dw| + 1..] == dh;
    ParseDecimalString(w);
    ParseDecimalString(h);
  }

  /** The two sizes the fixed icons declare. */
  lemma FixedSizesRead()
    ensures ParseSizes("192x192") == Some((192, 192))
    ensures ParseSizes("512x512") == Some((512, 512))
  {
    assert DecimalString(192) == "192" by {
      assert DecimalString(1) == "1";
      assert DecimalString(19) == "19";
    }
    assert DecimalString(512) == "512" by {
      assert DecimalString(5) == "5";
      assert DecimalString(51) == "51";
    }
    assert SizesString(192, 192) == "192x192";
    assert SizesString(512, 512) == "512x512";
    ParseSizesString(192, 192);
    ParseSizesString(512, 512);
  }

  /** The archive path a manifest `src` refers to: the path relative to the
      manifest, without a leading "./". */
  function ArchivePath(src: string): string {
    if |src| >= 2 && src[..2] == "./" then src[2..] else src
  }

  const ManifestPath := "manifest.json"
  const IconsDir := "icons/"
  // the names the icons folder's files are written under
  const Icon192Name := "icon-192x192.png"
  const Icon512Name := "icon-512x512.png"
  const Maskable192Name := "icon-maskable-192x192.png"
  const Maskable512Name := "icon-maskable-512x512.png"
  // and the archive paths they end up at
  const Icon192Path := IconsDir + Icon192Name
  const Icon512Path := IconsDir + Icon512Name
  const Maskable192Path := IconsDir + Maskable192Name
  const Maskable512Path := IconsDir + Maskable512Name

  /** The icon files in the order the icon block writes them. */
  const IconFiles: seq<string> := [Icon192Path, Icon512Path, Maskable192Path, Maskable512Path]

  /** A relative `src` written as "./" followed by a path names that path. */
  lemma ArchivePathOfRelative(path: string)
    ensures ArchivePath("./" + path) == path
  {
    var src := "./" + path;
    assert src[..2] == "./" && src[2..] == path;
  }

  /** Each fixed icon's `src` names its file under the archive's icons
      folder. */
  lemma FixedIconPaths()
    ensures ArchivePath(FixedIcons()[0].src) == Icon192Path
    ensures ArchivePath(FixedIcons()[1].src) == Icon512Path
    ensures ArchivePath(FixedIcons()[2].src) == Maskable192Path
    ensures ArchivePath(FixedIcons()[3].src) == Maskable512Path
  {
    ArchivePathOfRelative(Icon192Path);
    ArchivePathOfRelative(Icon512Path);
    ArchivePathOfRelative(Maskable192Path);
    ArchivePathOfRelative(Maskable512Path);
  }

  /** The folder "icons" is the archive directory "icons/", and the six
      archive paths are pairwise distinct. */
  lemma IconFilePaths()
    ensures WithTrailingSlash("icons") == IconsDir
    ensures ManifestPath != IconsDir && ManifestPath != Icon192Path && ManifestPath != Icon512Path && ManifestPath != Maskable192Path && ManifestPath != Maskable512Path
    ensures IconsDir != Icon192Path && IconsDir != Icon512Path && IconsDir != Maskable192Path && IconsDir != Maskable512Path
    ensures Icon192Path != Icon512Path && Icon192Path != Maskable192Path && Icon192Path != Maskable512Path
    ensures Icon512Path != Maskable192Path && Icon512Path != Maskable512Path
    ensures Maskable192Path != Maskable512Path
    // what tells them apart: their lengths, and one digit between the pairs
    // of equal length
    ensures |ManifestPath| == 13 && |IconsDir| == 6
    ensures |Icon192Path| == |Icon512Path| == 22 && Icon192Path[11] == '1' && Icon512Path[11] == '5'
    ensures |Maskable192Path| == |Maskable512Path| == 31 && Maskable192Path[20] == '1' && Maskable512Path[20] == '5'
  {
    assert Icon192Path[11] == Icon192Name[5];
    assert Icon512Path[11] == Icon512Name[5];
    assert Maskable192Path[20] == Maskable192Name[14];
    assert Maskable512Path[20] == Maskable512Name[14];
  }

  /** The fixed icons, entry by entry: four PNG entries with the purposes
      "any", "any", "maskable", "maskable", declaring 192, 512, 192 and 512
      pixel squares, at the archive paths of the four icon files. */
  lemma FixedIconsDescribed()
    ensures |FixedIcons()| == 4
    ensures FixedIcons()[0].mimeType == FixedIcons()[1].mimeType == FixedIcons()[2].mimeType == FixedIcons()[3].mimeType == "image/png"
    ensures Some(AnyPurpose) == PurposeFromLiteral("any") == FixedIcons()[0].purpose == FixedIcons()[1].purpose
    ensures Some(Maskable) == PurposeFromLiteral("maskable") == FixedIcons()[2].purpose == FixedIcons()[3].purpose
    ensures ParseSizes(FixedIcons()[0].sizes) == ParseSizes(FixedIcons()[2].sizes) == Some((192, 192))
    ensures ParseSizes(FixedIcons()[1].sizes) == ParseSizes(FixedIcons()[3].sizes) == Some((512, 512))
    ensures ArchivePath(FixedIcons()[0].src) == Icon192Path
    ensures ArchivePath(FixedIcons()[1].src) == Icon512Path
    ensures ArchivePath(FixedIcons()[2].src) == Maskable192Path
    ensures ArchivePath(FixedIcons()[3].src) == Maskable512Path
  {
    var f := FixedIcons();
    assert f[0].sizes == f[2].sizes == "192x192";
    assert f[1].sizes == f[3].sizes == "512x512";
    assert f[0].purpose == f[1].purpose == Some(AnyPurpose);
    assert f[2].purpose == f[3].purpose == Some(Maskable);
    assert PurposeFromLiteral("any") == Some(AnyPurpose);
    assert PurposeFromLiteral("maskable") == Some(Maskable);
    FixedSizesRead();
    FixedIconPaths();
  }

  /** The icon entry names a file of the archive holding the resize of
      `src` at the size the entry declares. */
  predicate Resolves(icon: Icon, a: Archive, resize: Resizer, src: string) {
    match ParseSizes(icon.sizes)
    case None => false
    case Some((w, h)) =>
      && ArchivePath(icon.src) in a.entries
      && resize(src, w, h).Ok?
      && a.entries[ArchivePath(icon.src)] == FileEntry(resize(src, w, h).value.base64, true)
  }

  /** With an exact-size resizer, every icon entry that resolves names a
      file whose image has the declared width and height. */
  lemma ResolvedIconHasDeclaredSize(icon: Icon, a: Archive, resize: Resizer, src: string)
    requires ExactSize(resize)
    requires Resolves(icon, a, resize, src)
    ensures ParseSizes(icon.sizes).Some?
    ensures var (w, h) := ParseSizes(icon.sizes).value;
            resize(src, w, h).Ok? && resize(src, w, h).value.width == w && resize(src, w, h).value.height == h
  {
  }

  // ---------------------------------------------------------------------
  // Archive assembly

  /** What reaches `saveAs`: the packed archive and its file name. */
  datatype SavedKit = SavedKit(archive: Archive, fileName: string)

  /** The saved file name: the short name, or "pwa" when it is empty,
      followed by "-kit.zip". */
  function KitFileName(m: Manifest): (r: string)
    ensures |r| >= 8 && r[|r| - 8..] == "-kit.zip"
    ensures r[..|r| - 8] == if m.shortName == "" then "pwa" else m.shortName
  {
    (if m.shortName != "" then m.shortName else "pwa") + "-kit.zip"
  }

  /** The archive the icon block leaves behind: the "icons" folder, then
      the files in the order they are written, up to the first rejected
      resize. */
  function IconArchive(a: Archive, src: string, resize: Resizer): Archive {
    var root := WithTrailingSlash("icons");
    var withFolder := WithFolder(a, "icons");
    match resize(src, 192, 192)
    case Err(_) => withFolder
    case Ok(icon192) =>
      var with192 := WithFile(withFolder, root + Icon192Name, icon192.base64, true);
      match resize(src, 512, 512)
      case Err(_) => with192
      case Ok(icon512) =>
        var with512 := WithFile(with192, root + Icon512Name, icon512.base64, true);
        var withMaskable192 := WithFile(with512, root + Maskable192Name, icon192.base64, true);
        WithFile(withMaskable192, root + Maskable512Name, icon512.base64, true)
  }

  /** The error the icon block's `catch` receives, if any: that of the
      first rejected resize. */
  function IconError(src: string, resize: Resizer): Option<ResizeError> {
    if resize(src, 192, 192).Err? then Some(resize(src, 192, 192).error)
    else if resize(src, 512, 512).Err? then Some(resize(src, 512, 512).error)
    else None
  }

  /** The archive `downloadPwaKit` packs: the cleaned manifest, then the
      icon block when the icon string is truthy. */
  function KitArchive(m: Manifest, icon: Option<string>, resize: Resizer, stringify: Manifest -> string): Archive {
    var withManifest := WithFile(Archive(map[], []), ManifestPath, stringify(Normalize(m, icon)), false);
    if IconTruthy(icon) then IconArchive(withManifest, icon.value, resize) else withManifest
  }

  /** The error `downloadPwaKit` catches: none without an icon. */
  function KitIconError(icon: Option<string>, resize: Resizer): Option<ResizeError> {
    if IconTruthy(icon) then IconError(icon.value, resize) else None
  }

  /** Every packed kit is well formed, starts with the manifest, and holds
      the cleaned manifest's text there. */
  lemma KitArchiveManifest(m: Manifest, icon: Option<string>, resize: Resizer, stringify: Manifest -> string)
    ensures WellFormed(KitArchive(m, icon, resize, stringify))
    ensures |KitArchive(m, icon, resize, stringify).order| > 0 && KitArchive(m, icon, resize, stringify).order[0] == ManifestPath
    ensures ManifestPath in KitArchive(m, icon, resize, stringify).entries
    ensures KitArchive(m, icon, resize, stringify).entries[ManifestPath] == FileEntry(stringify(Normalize(m, icon)), false)
  {
    var json := stringify(Normalize(m, icon));
    var a0 := WithFile(Archive(map[], []), ManifestPath, json, false);
    assert WellFormed(Archive(map[], []));
    assert a0.order == [ManifestPath];
    if IconTruthy(icon) {
      IconArchiveKeepsOthers(a0, icon.value, resize);
      IconFilePaths();
      assert ManifestPath !in IconFiles;
    }
  }

  /** The icon block keeps the archive well formed, only appends to its
      order, and leaves every entry other than the folder and the four icon
      files as it was. */
  lemma IconArchiveKeepsOthers(a: Archive, src: string, resize: Resizer)
    ensures WellFormed(a) ==> WellFormed(IconArchive(a, src, resize))
    ensures |a.order| <= |IconArchive(a, src, resize).order| && IconArchive(a, src, resize).order[..|a.order|] == a.order
    ensures forall p :: p in a.entries && p != IconsDir && p !in IconFiles ==>
              p in IconArchive(a, src, resize).entries && IconArchive(a, src, resize).entries[p] == a.entries[p]
  {
    IconFilePaths();
    var a1 := WithFolder(a, "icons");
    var r := IconArchive(a, src, resize);
    if resize(src, 192, 192).Ok? {
      var data192 := resize(src, 192, 192).value.base64;
      var a2 := WithFile(a1, Icon192Path, data192, true);
      if resize(src, 512, 512).Ok? {
        var data512 := resize(src, 512, 512).value.base64;
        IconArchiveAllResized(a, src, resize);
        var a3 := WithFile(a2, Icon512Path, data512, true);
        var a4 := WithFile(a3, Maskable192Path, data192, true);
        assert r == WithFile(a4, Maskable512Path, data512, true);
        assert r.order[..|a.order|] == a.order by {
          assert a.order <= a1.order <= a2.order <= a3.order <= a4.order <= r.order;
        }
      } else {
        IconArchiveSecondFails(a, src, resize);
        assert a.order <= a1.order <= r.order;
      }
    }
  }

  /** The kit has an "icons" folder exactly when the icon string is truthy,
      and an error is only ever caught from the icon block. */
  lemma KitIconsFolderIff(m: Manifest, icon: Option<string>, resize: Resizer, stringify: Manifest -> string)
    ensures IconsDir in KitArchive(m, icon, resize, stringify).entries <==> IconTruthy(icon)
    ensures KitIconError(icon, resize).Some? ==> IconTruthy(icon)
  {
    IconFilePaths();
    if IconTruthy(icon) {
      var src := icon.value;
      var withFolder := WithFolder(WithFile(Archive(map[], []), ManifestPath, stringify(Normalize(m, icon)), false), "icons");
      assert IconsDir in withFolder.entries;
      if resize(src, 192, 192).Ok? {
        var with192 := WithFile(withFolder, IconsDir + Icon192Name, resize(src, 192, 192).value.base64, true);
        assert IconsDir in with192.entries;
        if resize(src, 512, 512).Ok? {
          IconArchiveAllResized(WithFile(Archive(map[], []), ManifestPath, stringify(Normalize(m, icon)), false), src, resize);
        }
      }
    }
  }

  /** Without an icon the kit holds the manifest and nothing else. */
  lemma KitWithoutIcon(m: Manifest, icon: Option<string>, resize: Resizer, stringify: Manifest -> string)
    requires !IconTruthy(icon)
    ensures KitArchive(m, icon, resize, stringify).order == [ManifestPath]
    ensures KitArchive(m, icon, resize, stringify).entries == map[ManifestPath := FileEntry(stringify(Normalize(m, icon)), false)]
    ensures KitIconError(icon, resize).None?
  {
  }

  /** The manifest alone, and then the "icons" folder after it. */
  lemma ManifestThenFolder(json: string)
    ensures WithFile(Archive(map[], []), ManifestPath, json, false) == Archive(map[ManifestPath := FileEntry(json, false)], [ManifestPath])
    ensures WithFolder(WithFile(Archive(map[], []), ManifestPath, json, false), "icons")
      == Archive(map[ManifestPath := FileEntry(json, false), IconsDir := DirEntry], [ManifestPath, IconsDir])
  {
    IconFilePaths();
  }

  /** The first resize rejects: the manifest and the empty folder, the
      first error, and no icon entry of the manifest names a file. */
  lemma KitFirstResizeFails(m: Manifest, icon: Option<string>, resize: Resizer, stringify: Manifest -> string)
    requires IconTruthy(icon) && resize(icon.value, 192, 192).Err?
    ensures KitArchive(m, icon, resize, stringify).order == [ManifestPath, IconsDir]
    ensures KitArchive(m, icon, resize, stringify).entries
      == map[ManifestPath := FileEntry(stringify(Normalize(m, icon)), false), IconsDir := DirEntry]
    ensures KitIconError(icon, resize) == Some(resize(icon.value, 192, 192).error)
    ensures forall i :: 0 <= i < 4 ==> ArchivePath(Normalize(m, icon).icons[i].src) !in KitArchive(m, icon, resize, stringify).entries
  {
    var json := stringify(Normalize(m, icon));
    ManifestThenFolder(json);
    IconFilePaths();
    NoIconResolves(KitArchive(m, icon, resize, stringify), json);
  }

  /** The second resize rejects: the 192 pixel file follows the folder, the
      second error is caught, and only the first icon entry resolves. */
  lemma KitSecondResizeFails(m: Manifest, icon: Option<string>, resize: Resizer, stringify: Manifest -> string)
    requires IconTruthy(icon) && resize(icon.value, 192, 192).Ok? && resize(icon.value, 512, 512).Err?
    ensures KitArchive(m, icon, resize, stringify).order == [ManifestPath, IconsDir, Icon192Path]
    ensures KitArchive(m, icon, resize, stringify).entries
      == map[ManifestPath := FileEntry(stringify(Normalize(m, icon)), false), IconsDir := DirEntry,
             Icon192Path := FileEntry(resize(icon.value, 192, 192).value.base64, true)]
    ensures KitIconError(icon, resize) == Some(resize(icon.value, 512, 512).error)
    ensures Resolves(Normalize(m, icon).icons[0], KitArchive(m, icon, resize, stringify), resize, icon.value)
    ensures forall i :: 1 <= i < 4 ==> ArchivePath(Normalize(m, icon).icons[i].src) !in KitArchive(m, icon, resize, stringify).entries
  {
    var json := stringify(Normalize(m, icon));
    var data192 := resize(icon.value, 192, 192).value.base64;
    ManifestThenFolder(json);
    IconArchiveSecondFails(WithFile(Archive(map[], []), ManifestPath, json, false), icon.value, resize);
    ManifestFolderAnd192(json, data192);
    OnlyFirstIconResolves(KitArchive(m, icon, resize, stringify), json, resize, icon.value);
  }

  /** Both resizes succeed: all four files, in the order written, and every
      icon entry of the manifest resolves. */
  lemma KitAllResized(m: Manifest, icon: Option<string>, resize: Resizer, stringify: Manifest -> string)
    requires IconTruthy(icon) && resize(icon.value, 192, 192).Ok? && resize(icon.value, 512, 512).Ok?
    ensures KitArchive(m, icon, resize, stringify).order == [ManifestPath, IconsDir] + IconFiles
    ensures var a := KitArchive(m, icon, resize, stringify);
      && a.entries[IconsDir] == DirEntry
      && a.entries[Icon192Path] == a.entries[Maskable192Path] == FileEntry(resize(icon.value, 192, 192).value.base64, true)
      && a.entries[Icon512Path] == a.entries[Maskable512Path] == FileEntry(resize(icon.value, 512, 512).value.base64, true)
    ensures KitIconError(icon, resize).None?
    ensures forall i :: 0 <= i < 4 ==> Resolves(Normalize(m, icon).icons[i], KitArchive(m, icon, resize, stringify), resize, icon.value)
  {
    KitAllResizedFiles(stringify(Normalize(m, icon)), icon.value, resize);
    AllIconsResolve(KitArchive(m, icon, resize, stringify), resize, icon.value);
  }

  /** The archive behind `KitAllResized`: the manifest, the folder, and the
      four files. */
  lemma KitAllResizedFiles(json: string, src: string, resize: Resizer)
    requires resize(src, 192, 192).Ok? && resize(src, 512, 512).Ok?
    ensures var a := IconArchive(WithFile(Archive(map[], []), ManifestPath, json, false), src, resize);
      && a.order == [ManifestPath, IconsDir] + IconFiles
      && a.entries[IconsDir] == DirEntry
      && Icon192Path in a.entries && Maskable192Path in a.entries && Icon512Path in a.entries && Maskable512Path in a.entries
      && a.entries[Icon192Path] == a.entries[Maskable192Path] == FileEntry(resize(src, 192, 192).value.base64, true)
      && a.entries[Icon512Path] == a.entries[Maskable512Path] == FileEntry(resize(src, 512, 512).value.base64, true)
  {
    ManifestThenFolder(json);
    ManifestAndFolderLackIconFiles(json);
    IconArchiveAllResized(WithFile(Archive(map[], []), ManifestPath, json, false), src, resize);
    var a1 := Archive(map[ManifestPath := FileEntry(json, false), IconsDir := DirEntry], [ManifestPath, IconsDir]);
    FourIconFiles(a1, resize(src, 192, 192).value.base64, resize(src, 512, 512).value.base64);
  }

  /** The second resize rejects: the icon block writes the folder and the
      192 pixel file only. */
  lemma IconArchiveSecondFails(a: Archive, src: string, resize: Resizer)
    requires resize(src, 192, 192).Ok? && resize(src, 512, 512).Err?
    ensures IconArchive(a, src, resize) == WithFile(WithFolder(a, "icons"), Icon192Path, resize(src, 192, 192).value.base64, true)
  {
    IconFilePaths();
  }

  /** The 192 pixel file written after the manifest and the folder. */
  lemma ManifestFolderAnd192(json: string, data192: string)
    ensures WithFile(Archive(map[ManifestPath := FileEntry(json, false), IconsDir := DirEntry], [ManifestPath, IconsDir]), Icon192Path, data192, true)
      == Archive(map[ManifestPath := FileEntry(json, false), IconsDir := DirEntry, Icon192Path := FileEntry(data192, true)],
                 [ManifestPath, IconsDir, Icon192Path])
  {
    IconFilePaths();
  }

  /** Both resizes succeed: the icon block writes the folder and then the
      four files under it. */
  lemma IconArchiveAllResized(a: Archive, src: string, resize: Resizer)
    requires resize(src, 192, 192).Ok? && resize(src, 512, 512).Ok?
    ensures var data192 := resize(src, 192, 192).value.base64;
      var data512 := resize(src, 512, 512).value.base64;
      IconArchive(a, src, resize)
      == WithFile(WithFile(WithFile(WithFile(WithFolder(a, "icons"), Icon192Path, data192, true), Icon512Path, data512, true),
                  Maskable192Path, data192, true), Maskable512Path, data512, true)
  {
    IconFilePaths();
  }

  /** The four icon files written into an archive that has none of them:
      they follow its entries in the order written. */
  lemma FourIconFiles(a: Archive, data192: string, data512: string)
    requires forall p :: p in IconFiles ==> p !in a.entries
    ensures var r := WithFile(WithFile(WithFile(WithFile(a, Icon192Path, data192, true), Icon512Path, data512, true),
                              Maskable192Path, data192, true), Maskable512Path, data512, true);
      && r.order == a.order + IconFiles
      && (forall p :: p in a.entries ==> p in r.entries && r.entries[p] == a.entries[p])
      && Icon192Path in r.entries && Maskable192Path in r.entries && Icon512Path in r.entries && Maskable512Path in r.entries
      && r.entries[Icon192Path] == r.entries[Maskable192Path] == FileEntry(data192, true)
      && r.entries[Icon512Path] == r.entries[Maskable512Path] == FileEntry(data512, true)
  {
    IconFilePaths();
    assert IconFiles[0] !in a.entries && IconFiles[1] !in a.entries && IconFiles[2] !in a.entries && IconFiles[3] !in a.entries;
    var a1 := WithFile(a, Icon192Path, data192, true);
    assert a1.order == a.order + [Icon192Path];
    var a2 := WithFile(a1, Icon512Path, data512, true);
    assert a2.order == a.order + [Icon192Path, Icon512Path];
    var a3 := WithFile(a2, Maskable192Path, data192, true);
    assert a3.order == a.order + [Icon192Path, Icon512Path, Maskable192Path];
    var a4 := WithFile(a3, Maskable512Path, data512, true);
    assert a4.order == a.order + IconFiles;
    assert a4.entries[Icon192Path] == a3.entries[Icon192Path] == a2.entries[Icon192Path];
    assert a4.entries[Icon512Path] == a3.entries[Icon512Path];
  }

  /** The manifest and the folder hold none of the icon files. */
  lemma ManifestAndFolderLackIconFiles(json: string)
    ensures forall p :: p in IconFiles ==> p !in map[ManifestPath := FileEntry(json, false), IconsDir := DirEntry]
  {
    IconFilePaths();
  }

  /** With only the manifest and the folder written, none of the fixed
      icon entries names a file of the archive. */
  lemma NoIconResolves(a: Archive, json: string)
    requires a.entries == map[ManifestPath := FileEntry(json, false), IconsDir := DirEntry]
    ensures forall i :: 0 <= i < 4 ==> ArchivePath(FixedIcons()[i].src) !in a.entries
  {
    FixedIconPaths();
    IconFilePaths();
  }

  /** With only the 192 pixel file written, the first fixed icon entry
      resolves and the other three dangle. */
  lemma OnlyFirstIconResolves(a: Archive, json: string, resize: Resizer, src: string)
    requires resize(src, 192, 192).Ok?
    requires a.entries == map[ManifestPath := FileEntry(json, false), IconsDir := DirEntry,
                              Icon192Path := FileEntry(resize(src, 192, 192).value.base64, true)]
    ensures Resolves(FixedIcons()[0], a, resize, src)
    ensures forall i :: 1 <= i < 4 ==> ArchivePath(FixedIcons()[i].src) !in a.entries
  {
    FirstIconResolves(a, resize, src);
    LaterIconsDangle(a, json, resize(src, 192, 192).value.base64);
  }

  /** The first fixed icon entry resolves once the 192 pixel file holds the
      192 pixel resize. */
  lemma FirstIconResolves(a: Archive, resize: Resizer, src: string)
    requires resize(src, 192, 192).Ok?
    requires Icon192Path in a.entries && a.entries[Icon192Path] == FileEntry(resize(src, 192, 192).value.base64, true)
    ensures Resolves(FixedIcons()[0], a, resize, src)
  {
    FixedIconPaths();
    FixedSizesRead();
    assert FixedIcons()[0].sizes == "192x192";
  }

  /** With the manifest, the folder and the 192 pixel file written, the
      last three fixed icon entries name no file. */
  lemma LaterIconsDangle(a: Archive, json: string, data192: string)
    requires a.entries == map[ManifestPath := FileEntry(json, false), IconsDir := DirEntry, Icon192Path := FileEntry(data192, true)]
    ensures forall i :: 1 <= i < 4 ==> ArchivePath(FixedIcons()[i].src) !in a.entries
  {
    FixedIconPaths();
    IconFilePaths();
    forall i | 1 <= i < 4 ensures ArchivePath(FixedIcons()[i].src) !in a.entries {
      if i == 1 {
        assert Icon512Path !in a.entries;
      } else if i == 2 {
        assert Maskable192Path !in a.entries;
      } else {
        assert Maskable512Path !in a.entries;
      }
    }
  }

  /** With all four files written from the two resizes, every fixed icon
      entry names the file holding the resize at its declared size. */
  lemma AllIconsResolve(a: Archive, resize: Resizer, src: string)
    requires resize(src, 192, 192).Ok? && resize(src, 512, 512).Ok?
    requires Icon192Path in a.entries && Maskable192Path in a.entries && Icon512Path in a.entries && Maskable512Path in a.entries
    requires a.entries[Icon192Path] == a.entries[Maskable192Path] == FileEntry(resize(src, 192, 192).value.base64, true)
    requires a.entries[Icon512Path] == a.entries[Maskable512Path] == FileEntry(resize(src, 512, 512).value.base64, true)
    ensures forall i :: 0 <= i < 4 ==> Resolves(FixedIcons()[i], a, resize, src)
  {
    FixedIconsDescribed();
    var f := FixedIcons();
    IconResolvesWhenWritten(f[0], 192, a, resize, src);
    IconResolvesWhenWritten(f[1], 512, a, resize, src);
    IconResolvesWhenWritten(f[2], 192, a, resize, src);
    IconResolvesWhenWritten(f[3], 512, a, resize, src);
    forall i | 0 <= i < 4 ensures Resolves(f[i], a, resize, src) {
      assert i == 0 || i == 1 || i == 2 || i == 3;
    }
  }

  /** An icon entry resolves once the file it names holds the resize at the
      square size it declares. */
  lemma IconResolvesWhenWritten(icon: Icon, side: nat, a: Archive, resize: Resizer, src: string)
    requires ParseSizes(icon.sizes) == Some((side, side)) && resize(src, side, side).Ok?
    requires ArchivePath(icon.src) in a.entries
    requires a.entries[ArchivePath(icon.src)] == FileEntry(resize(src, side, side).value.base64, true)
    ensures Resolves(icon, a, resize, src)
  {
  }

  /** `downloadPwaKit(manifest, iconBase64)`. `JSON.stringify(_, null, 2)`
      is the parameter `stringify`, `resizeImage` the parameter `resize`.
      The error the `catch` swallows (and reports by an alert) is returned
      as `iconError`. What is saved is the kit archive under the kit file
      name; the lemmas above say what that archive holds in each case. */
  method DownloadPwaKit(manifest: Manifest, iconBase64: Option<string>, resize: Resizer, stringify: Manifest -> string)
    returns (saved: SavedKit, iconError: Option<ResizeError>)
    ensures saved == SavedKit(KitArchive(manifest, iconBase64, resize, stringify), KitFileName(manifest))
    ensures iconError == KitIconError(iconBase64, resize)
  {
    var zip := new Zip();

    // 1. the manifest, cleaned: a copy with filtered screenshots and,
    // with an icon, the fixed icon list
    var cleanManifest := manifest;
    cleanManifest := cleanManifest.(screenshots := Filter(KeepScreenshot, cleanManifest.screenshots));
    if IconTruthy(iconBase64) {
      cleanManifest := cleanManifest.(icons := FixedIcons());
    }
    assert cleanManifest == Normalize(manifest, iconBase64);
    zip.File(ManifestPath, stringify(cleanManifest), false);

    // 2. the icons
    iconError := None;
    if IconTruthy(iconBase64) {
      iconError := AddIcons(zip, iconBase64.value, resize);
    }

    // 3. pack and save
    saved := SavedKit(zip.Snapshot(), KitFileName(manifest));
  }

  /** The `if (iconBase64)` block after the manifest is written: the icons
      folder, then the `try` whose first rejected resize stops it. The
      caught error is the result. */
  method AddIcons(zip: Zip, iconBase64: string, resize: Resizer) returns (iconError: Option<ResizeError>)
    requires zip.Valid()
    modifies zip
    ensures zip.Valid()
    ensures zip.Snapshot() == IconArchive(old(zip.Snapshot()), iconBase64, resize)
    ensures iconError == IconError(iconBase64, resize)
  {
    var iconsFolder := zip.Folder("icons");
    // `folder` always returns a folder object, so `if (iconsFolder)` holds
    var icon192 := resize(iconBase64, 192, 192);
    if icon192.Err? {
      iconError := Some(icon192.error);
      return;
    }
    zip.File(iconsFolder + Icon192Name, icon192.value.base64, true);
    var icon512 := resize(iconBase64, 512, 512);
    if icon512.Err? {
      iconError := Some(icon512.error);
      return;
    }
    zip.File(iconsFolder + Icon512Name, icon512.value.base64, true);
    // the maskable files reuse the standard images
    zip.File(iconsFolder + Maskable192Name, icon192.value.base64, true);
    zip.File(iconsFolder + Maskable512Name, icon512.value.base64, true);
    iconError := None;
  }

  // ---------------------------------------------------------------------
  // b64toBlob

  /** A `Blob` built from byte chunks, with its content type. */
  datatype Blob = Blob(parts: seq<seq<bv8>>, mimeType: string)

  /** The element a `Uint8Array` stores for a number: its value modulo 256. */
  function ToUint8(x: int): bv8 {
    (x % 256) as bv8
  }

  /** The bytes of a string, one per character code. */
  function CharCodes(s: string): (r: seq<bv8>)
    ensures |r| == |s| && forall i :: 0 <= i < |s| ==> r[i] == ToUint8(s[i] as int)
  {
    seq(|s|, i requires 0 <= i < |s| => ToUint8(s[i] as int))
  }

  /** The bytes of a blob's chunks, one after the other. */
  function Concat(parts: seq<seq<bv8>>): seq<bv8> {
    if parts == [] then [] else Concat(parts[..|parts| - 1]) + parts[|parts| - 1]
  }

  /** How many chunks of `d` items it takes to cover `n` items. */
  function CeilDiv(n: int, d: nat): nat
    requires d > 0
    decreases n
  {
    if n <= 0 then 0 else 1 + CeilDiv(n - d, d)
  }

  /** `CeilDiv(n, d)` is `n / d` rounded up: that many chunks of `d` cover
      `n`, one fewer do not. */
  lemma {:induction false} CeilDivIsCeiling(n: nat, d: nat)
    requires d > 0
    ensures CeilDiv(n, d) * d >= n
    ensures n > 0 ==> (CeilDiv(n, d) - 1) * d < n
    decreases n
  {
    if n > d {
      CeilDivIsCeiling(n - d, d);
      assert CeilDiv(n, d) * d == d + CeilDiv(n - d, d) * d;
    } else if n > 0 {
      assert CeilDiv(n - d, d) == 0;
    }
  }

  /** `b64toBlob(b64Data, contentType, sliceSize)`, starting from the
      decoded string `byteCharacters` (`atob` is outside the model): the
      chunks concatenate to the character codes in order, there are
      `ceil(n / sliceSize)` of them, all but the last are full and none is
      empty. */
  method B64ToBlob(byteCharacters: string, contentType: string, sliceSize: nat) returns (blob: Blob)
    requires sliceSize > 0
    ensures blob.mimeType == contentType
    ensures Concat(blob.parts) == CharCodes(byteCharacters)
    ensures |blob.parts| == CeilDiv(|byteCharacters|, sliceSize)
    ensures forall k :: 0 <= k < |blob.parts| ==> 0 < |blob.parts[k]| <= sliceSize
    ensures forall k :: 0 <= k < |blob.parts| - 1 ==> |blob.parts[k]| == sliceSize
  {
    var n := |byteCharacters|;
    var byteArrays: seq<seq<bv8>> := [];
    var offset := 0;
    while offset < n
      invariant |byteArrays| + CeilDiv(n - offset, sliceSize) == CeilDiv(n, sliceSize)
      invariant Concat(byteArrays) == CharCodes(byteCharacters[..if offset <= n then offset else n])
      invariant forall k :: 0 <= k < |byteArrays| ==> 0 < |byteArrays[k]| <= sliceSize
      invariant forall k :: 0 <= k < |byteArrays| - 1 ==> |byteArrays[k]| == sliceSize
      invariant offset <= n ==> forall k :: 0 <= k < |byteArrays| ==> |byteArrays[k]| == sliceSize
    {
      // `slice` clamps its end to the length
      var end := if offset + sliceSize <= n then offset + sliceSize else n;
      var slice := byteCharacters[offset..end];
      var byteNumbers := new int[|slice|];
      for i := 0 to |slice|
        invariant forall j :: 0 <= j < i ==> byteNumbers[j] == slice[j] as int
      {
        byteNumbers[i] := slice[i] as int;
      }
      var byteArray := seq(byteNumbers.Length, j requires 0 <= j < byteNumbers.Length reads byteNumbers => ToUint8(byteNumbers[j]));
      assert byteArray == CharCodes(slice);
      assert byteCharacters[..end] == byteCharacters[..offset] + slice;
      CharCodesAppend(byteCharacters[..offset], slice);
      assert (byteArrays + [byteArray])[..|byteArrays|] == byteArrays;
      byteArrays := byteArrays + [byteArray];
      offset := offset + sliceSize;
    }
    assert byteCharacters[..n] == byteCharacters;
    blob := Blob(byteArrays, contentType);
  }

  lemma CharCodesAppend(a: string, b: string)
    ensures CharCodes(a + b) == CharCodes(a) + CharCodes(b)
  {
  }
}
