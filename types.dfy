/** The data model of the manifest builder (types.ts). Each TypeScript
    interface becomes a datatype; a `?:` field becomes an `Option`; each
    string-literal union becomes an enumeration whose `Literal()` is the
    string the JSON form carries. */
module Types {
  import opened Wrappers

  /** `display: 'fullscreen' | 'standalone' | 'minimal-ui' | 'browser'` */
  datatype Display = Fullscreen | Standalone | MinimalUi | Browser {
    function Literal(): string {
      match this
      case Fullscreen => "fullscreen"
      case Standalone => "standalone"
      case MinimalUi => "minimal-ui"
      case Browser => "browser"
    }
  }

  /** The string is a member of the `display` union exactly when it is the
      literal of some `Display`, and then of exactly that one. */
  function DisplayFromLiteral(s: string): (r: Option<Display>)
    ensures r.Some? ==> r.value.Literal() == s
    ensures forall d: Display :: d.Literal() == s ==> r == Some(d)
  {
    if s == "fullscreen" then Some(Fullscreen)
    else if s == "standalone" then Some(Standalone)
    else if s == "minimal-ui" then Some(MinimalUi)
    else if s == "browser" then Some(Browser)
    else None
  }

  /** `orientation: 'any' | 'natural' | 'landscape' | 'portrait'` */
  datatype Orientation = AnyOrientation | Natural | Landscape | Portrait {
    function Literal(): string {
      match this
      case AnyOrientation => "any"
      case Natural => "natural"
      case Landscape => "landscape"
      case Portrait => "portrait"
    }
  }

  function OrientationFromLiteral(s: string): (r: Option<Orientation>)
    ensures r.Some? ==> r.value.Literal() == s
    ensures forall o: Orientation :: o.Literal() == s ==> r == Some(o)
  {
    if s == "any" then Some(AnyOrientation)
    else if s == "natural" then Some(Natural)
    else if s == "landscape" then Some(Landscape)
    else if s == "portrait" then Some(Portrait)
    else None
  }

  /** `dir?: 'ltr' | 'rtl' | 'auto'` */
  datatype Dir = Ltr | Rtl | AutoDir {
    function Literal(): string {
      match this
      case Ltr => "ltr"
      case Rtl => "rtl"
      case AutoDir => "auto"
    }
  }

  function DirFromLiteral(s: string): (r: Option<Dir>)
    ensures r.Some? ==> r.value.Literal() == s
    ensures forall d: Dir :: d.Literal() == s ==> r == Some(d)
  {
    if s == "ltr" then Some(Ltr)
    else if s == "rtl" then Some(Rtl)
    else if s == "auto" then Some(AutoDir)
    else None
  }

  /** `purpose?: 'any' | 'maskable' | 'monochrome'` */
  datatype Purpose = AnyPurpose | Maskable | Monochrome {
    function Literal(): string {
      match this
      case AnyPurpose => "any"
      case Maskable => "maskable"
      case Monochrome => "monochrome"
    }
  }

  function PurposeFromLiteral(s: string): (r: Option<Purpose>)
    ensures r.Some? ==> r.value.Literal() == s
    ensures forall p: Purpose :: p.Literal() == s ==> r == Some(p)
  {
    if s == "any" then Some(AnyPurpose)
    else if s == "maskable" then Some(Maskable)
    else if s == "monochrome" then Some(Monochrome)
    else None
  }

  /** `form_factor?: 'wide' | 'narrow'` */
  datatype FormFactor = Wide | Narrow {
    function Literal(): string {
      match this
      case Wide => "wide"
      case Narrow => "narrow"
    }
  }

  function FormFactorFromLiteral(s: string): (r: Option<FormFactor>)
    ensures r.Some? ==> r.value.Literal() == s
    ensures forall f: FormFactor :: f.Literal() == s ==> r == Some(f)
  {
    if s == "wide" then Some(Wide)
    else if s == "narrow" then Some(Narrow)
    else None
  }

  /** `type ImageSize = '1K' | '2K' | '4K'`: the size tier asked of the
      image generator. */
  datatype ImageSize = Size1K | Size2K | Size4K {
    function Literal(): string {
      match this
      case Size1K => "1K"
      case Size2K => "2K"
      case Size4K => "4K"
    }
  }

  function ImageSizeFromLiteral(s: string): (r: Option<ImageSize>)
    ensures r.Some? ==> r.value.Literal() == s
    ensures forall z: ImageSize :: z.Literal() == s ==> r == Some(z)
  {
    if s == "1K" then Some(Size1K)
    else if s == "2K" then Some(Size2K)
    else if s == "4K" then Some(Size4K)
    else None
  }

  /** `Icon`: `src`, `sizes` and `type` are required, `purpose` optional.
      The JSON key `type` is the field `mimeType`. */
  datatype Icon = Icon(src: string, sizes: string, mimeType: string, purpose: Option<Purpose>)

  /** `Screenshot`: only `src` is required. The JSON key `label` is the
      field `labelText` (`label` is a Dafny keyword). */
  datatype Screenshot = Screenshot(
    src: string,
    sizes: Option<string>,
    mimeType: Option<string>,
    formFactor: Option<FormFactor>,
    labelText: Option<string>)

  /** `RelatedApplication`: `platform` and `url` required, `id` optional. */
  datatype RelatedApplication = RelatedApplication(platform: string, url: string, id: Option<string>)

  /** `Manifest`, its fields in the declared order. The JSON keys are the
      snake_case forms (`short_name`, `start_url`, `background_color`,
      `theme_color`, `iarc_rating_id`, `related_applications`,
      `prefer_related_applications`). */
  datatype Manifest = Manifest(
    name: string,
    shortName: string,
    description: string,
    startUrl: string,
    display: Display,
    backgroundColor: string,
    themeColor: string,
    orientation: Orientation,
    scope: string,
    icons: seq<Icon>,
    screenshots: seq<Screenshot>,
    categories: seq<string>,
    iarcRatingId: Option<string>,
    relatedApplications: Option<seq<RelatedApplication>>,
    preferRelatedApplications: Option<bool>,
    lang: Option<string>,
    dir: Option<Dir>)

  /** `GeneratedImage`: what the image generator hands back. */
  datatype GeneratedImage = GeneratedImage(base64: string, mimeType: string)
}
