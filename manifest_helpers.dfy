/** The default manifest and the category list (utils/manifestHelpers.ts). */
module ManifestHelpers {
  import opened Wrappers
  import opened Types

  /** `initialManifest`: the manifest the form starts from. */
  const InitialManifest: Manifest := Manifest(
    name := "",
    shortName := "",
    description := "",
    startUrl := "/",
    display := Standalone,
    backgroundColor := "#ffffff",
    themeColor := "#4F46E5",
    orientation := AnyOrientation,
    scope := "/",
    icons := [],
    screenshots := [],
    categories := [],
    iarcRatingId := None,
    relatedApplications := None,
    preferRelatedApplications := Some(false),
    lang := Some("en"),
    dir := Some(Ltr))

  /** `PWABUILDER_CATEGORIES`: the store categories offered to the user. */
  const PwabuilderCategories: seq<string> := [
    "books", "business", "education", "entertainment", "finance", "food", "games",
    "government", "health", "kids", "lifestyle", "magazines", "medical", "music",
    "navigation", "news", "personalization", "photo", "politics", "productivity",
    "security", "shopping", "social", "sports", "travel", "utilities", "weather"
  ]

  /** The default's identity fields are empty, its start URL and scope are
      the site root, and its display and orientation are the literals
      "standalone" and "any" of their unions. */
  lemma InitialManifestDefaults()
    ensures InitialManifest.name == "" && InitialManifest.shortName == "" && InitialManifest.description == ""
    ensures InitialManifest.startUrl == "/" && InitialManifest.scope == "/"
    ensures DisplayFromLiteral("standalone") == Some(InitialManifest.display)
    ensures OrientationFromLiteral("any") == Some(InitialManifest.orientation)
    ensures InitialManifest.icons == [] && InitialManifest.screenshots == [] && InitialManifest.categories == []
    ensures InitialManifest.lang == Some("en") && DirFromLiteral("ltr") == InitialManifest.dir
    ensures InitialManifest.preferRelatedApplications == Some(false)
    ensures InitialManifest.iarcRatingId.None? && InitialManifest.relatedApplications.None?
  {
  }

  /** Code-point order on strings. It agrees with JavaScript's `<`, which
      compares UTF-16 code units, on strings inside the Basic Multilingual
      Plane, as every category is. */
  predicate LexLess(a: string, b: string) {
    if a == [] then b != []
    else if b == [] then false
    else if a[0] != b[0] then a[0] < b[0]
    else LexLess(a[1..], b[1..])
  }

  lemma {:induction false} LexLessIrreflexive(a: string)
    ensures !LexLess(a, a)
  {
    if a != [] {
      LexLessIrreflexive(a[1..]);
    }
  }

  lemma {:induction false} LexLessTransitive(a: string, b: string, c: string)
    requires LexLess(a, b) && LexLess(b, c)
    ensures LexLess(a, c)
  {
    if a != [] && b != [] && c != [] && a[0] == b[0] && b[0] == c[0] {
      LexLessTransitive(a[1..], b[1..], c[1..]);
    }
  }

  ghost predicate StrictlySorted(xs: seq<string>) {
    forall i, j :: 0 <= i < j < |xs| ==> LexLess(xs[i], xs[j])
  }

  /** Each neighbour pair in order is enough for the whole list to be in
      strictly increasing order. */
  lemma {:induction false} NeighboursSortedIsSorted(xs: seq<string>)
    requires forall i :: 0 <= i < |xs| - 1 ==> LexLess(xs[i], xs[i + 1])
    ensures StrictlySorted(xs)
  {
    if |xs| > 1 {
      var tail := xs[1..];
      NeighboursSortedIsSorted(tail);
      forall j | 1 <= j < |xs| ensures LexLess(xs[0], xs[j]) {
        if j > 1 {
          assert tail[j - 1] == xs[j] && tail[0] == xs[1];
          LexLessTransitive(xs[0], xs[1], xs[j]);
        }
      }
    }
  }

  /** A strictly sorted list has no duplicates. */
  lemma SortedHasNoDuplicates(xs: seq<string>)
    requires StrictlySorted(xs)
    ensures NoDuplicates(xs)
  {
    forall i, j | 0 <= i < j < |xs| ensures xs[i] != xs[j] {
      LexLessIrreflexive(xs[i]);
    }
  }

  /** Made of the letters a to z only. */
  predicate IsLowerCaseWord(w: string) {
    forall k :: 0 <= k < |w| ==> 'a' <= w[k] <= 'z'
  }

  /** Every category is written in lower-case letters only. */
  lemma CategoriesLowerCase()
    ensures forall i :: 0 <= i < |PwabuilderCategories| ==> IsLowerCaseWord(PwabuilderCategories[i])
  {
    CategoriesLowerCaseBelow();
    CategoriesLowerCaseFrom();
  }

  /** The first fourteen categories, "books" to "music". */
  lemma CategoriesLowerCaseBelow()
    ensures forall i :: 0 <= i < 14 ==> IsLowerCaseWord(PwabuilderCategories[i])
  {
  }

  /** The last thirteen categories, "navigation" to "weather". */
  lemma CategoriesLowerCaseFrom()
    ensures forall i :: 14 <= i < |PwabuilderCategories| ==> IsLowerCaseWord(PwabuilderCategories[i])
  {
  }

  /** Each category sorts strictly before the next one. */
  lemma CategoriesNeighboursSorted()
    ensures forall i :: 0 <= i < |PwabuilderCategories| - 1 ==>
              LexLess(PwabuilderCategories[i], PwabuilderCategories[i + 1])
  {
    CategoriesNeighboursSortedBelow();
    CategoriesNeighboursSortedFrom();
  }

  /** The first thirteen neighbouring pairs, "books" to "music". */
  lemma CategoriesNeighboursSortedBelow()
    ensures forall i :: 0 <= i < 13 ==> LexLess(PwabuilderCategories[i], PwabuilderCategories[i + 1])
  {
    assert LexLess("books", "business");
    assert LexLess("business", "education");
    assert LexLess("education", "entertainment");
    assert LexLess("entertainment", "finance");
    assert LexLess("finance", "food");
    assert LexLess("food", "games");
    assert LexLess("games", "government");
    assert LexLess("government", "health");
    assert LexLess("health", "kids");
    assert LexLess("kids", "lifestyle");
    assert LexLess("lifestyle", "magazines");
    assert LexLess("magazines", "medical");
    assert LexLess("medical", "music");
  }

  /** The last thirteen neighbouring pairs, "music" to "weather". */
  lemma CategoriesNeighboursSortedFrom()
    ensures forall i :: 13 <= i < |PwabuilderCategories| - 1 ==> LexLess(PwabuilderCategories[i], PwabuilderCategories[i + 1])
  {
    assert LexLess("music", "navigation");
    assert LexLess("navigation", "news");
    assert LexLess("news", "personalization");
    assert LexLess("personalization", "photo");
    assert LexLess("photo", "politics");
    assert LexLess("politics", "productivity");
    assert LexLess("productivity", "security");
    assert LexLess("security", "shopping");
    assert LexLess("shopping", "social");
    assert LexLess("social", "sports");
    assert LexLess("sports", "travel");
    assert LexLess("travel", "utilities");
    assert LexLess("utilities", "weather");
  }

  /** The list as written: 27 lower-case entries, strictly alphabetical, so
      none repeats. */
  lemma CategoriesWellFormed()
    ensures |PwabuilderCategories| == 27
    ensures forall i :: 0 <= i < |PwabuilderCategories| ==> IsLowerCaseWord(PwabuilderCategories[i])
    ensures StrictlySorted(PwabuilderCategories)
    ensures NoDuplicates(PwabuilderCategories)
  {
    CategoriesLowerCase();
    CategoriesNeighboursSorted();
    NeighboursSortedIsSorted(PwabuilderCategories);
    SortedHasNoDuplicates(PwabuilderCategories);
  }
}
