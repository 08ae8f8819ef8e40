// The application state that feeds the kit download: the manifest being
// edited, the generated icon, and the download handler's guard.

module App {
  import opened Wrappers
  import opened Types
  import opened JsText
  import opened ManifestHelpers
  import opened JsZip
  import opened ZipUtils

  /** The alert shown when the download is refused. */
  const MissingDetailsAlert: string :=
    "Please fill in the essential app details (Name, Short Name, Description)."

  /** The guard of the download handler: name, short name and description
      are all truthy, that is, non-empty. No trimming happens here. */
  predicate EssentialDetailsFilled(m: Manifest) {
    m.name != "" && m.shortName != "" && m.description != ""
  }

  /** A manifest whose required details are only whitespace passes the
      guard, although each of them trims to the empty string. */
  lemma WhitespaceDetailsPass(m: Manifest)
    requires m.name != "" && m.shortName != "" && m.description != ""
    requires forall i :: 0 <= i < |m.name| ==> IsJsWhitespace(m.name[i])
    requires forall i :: 0 <= i < |m.shortName| ==> IsJsWhitespace(m.shortName[i])
    requires forall i :: 0 <= i < |m.description| ==> IsJsWhitespace(m.description[i])
    ensures EssentialDetailsFilled(m)
    ensures Trim(m.name) == "" && Trim(m.shortName) == "" && Trim(m.description) == ""
  {
    TrimEmptyIffAllWhitespace(m.name);
    TrimEmptyIffAllWhitespace(m.shortName);
    TrimEmptyIffAllWhitespace(m.description);
  }

  /** Packaging the form's starting manifest without an icon keeps its
      empty icon and screenshot lists and changes nothing else. */
  lemma InitialManifestNormalized()
    ensures Normalize(InitialManifest, None).icons == []
    ensures Normalize(InitialManifest, None).screenshots == []
    ensures Normalize(InitialManifest, None) == InitialManifest
  {
  }

  /** What one click on the download button does. */
  datatype DownloadOutcome =
    | Rejected(alert: string)
    | Packaged(kit: SavedKit, iconError: Option<ResizeError>)

  /** The state of the `App` component. */
  class App {
    var manifest: Manifest
    var apiKeySet: bool
    var generatedIconBase64: Option<string>

    /** The first render: the initial manifest, no key, no icon. A fresh
        app refuses to download. */
    constructor ()
      ensures manifest == InitialManifest && !apiKeySet && generatedIconBase64.None?
      ensures !EssentialDetailsFilled(manifest)
    {
      manifest := InitialManifest;
      apiKeySet := false;
      generatedIconBase64 := None;
    }

    /** `handleIconGenerated`: stores the icon, nothing else changes. */
    method HandleIconGenerated(base64: string)
      modifies this
      ensures generatedIconBase64 == Some(base64)
      ensures manifest == old(manifest) && apiKeySet == old(apiKeySet)
    {
      generatedIconBase64 := Some(base64);
    }

    /** `handleDownload`: refuses with the alert exactly when a required
        detail is empty; otherwise packages the current manifest with the
        current icon. The app state is not changed either way. */
    method HandleDownload(resize: Resizer, stringify: Manifest -> string) returns (outcome: DownloadOutcome)
      ensures outcome.Rejected? <==> !EssentialDetailsFilled(manifest)
      ensures outcome.Rejected? ==> outcome.alert == MissingDetailsAlert
      ensures outcome.Packaged? ==>
        && outcome.kit == SavedKit(KitArchive(manifest, generatedIconBase64, resize, stringify), KitFileName(manifest))
        && outcome.iconError == KitIconError(generatedIconBase64, resize)
        && WellFormed(outcome.kit.archive)
        && outcome.kit.fileName == KitFileName(manifest)
        && ManifestPath in outcome.kit.archive.entries
        && outcome.kit.archive.entries[ManifestPath] == FileEntry(stringify(Normalize(manifest, generatedIconBase64)), false)
        && (IconsDir in outcome.kit.archive.entries <==> IconTruthy(generatedIconBase64))
        && (outcome.iconError.Some? ==> IconTruthy(generatedIconBase64))
    {
      if !EssentialDetailsFilled(manifest) {
        outcome := Rejected(MissingDetailsAlert);
        return;
      }
      var kit, iconError := DownloadPwaKit(manifest, generatedIconBase64, resize, stringify);
      KitArchiveManifest(manifest, generatedIconBase64, resize, stringify);
      KitIconsFolderIff(manifest, generatedIconBase64, resize, stringify);
      outcome := Packaged(kit, iconError);
    }
  }
}
