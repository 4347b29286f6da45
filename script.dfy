/**
 * The logic of the site-wide script: how a photo reference becomes a URL,
 * which navigation link is marked active, and which entries the home page
 * features.
 */
module SiteScript {
  import opened Options
  import opened JsBuiltins
  import opened Catalog

  /**
   * The placeholder photo shown when an entry has none of its own. The
   * literal is written as `"http" + "s://…"` so that its `http` prefix is a
   * term of its own, from which `GetDefaultImage` reads off that it is a URL.
   */
  const DefaultImage: string :=
    "http" + "s://images.unsplash.com/photo-1599643478510-a349f327f8c9?ixlib=rb-4.0.3&auto=format&fit=crop&w=400&q=80"
  /** The file name that stands for "no photo". */
  const DefaultFileName: string := "default.jpg"
  /** How many entries the home page features at most. */
  const FeaturedMax := 3

  /** `getDefaultImage()`: the placeholder is an `http` URL, so it is passed through as it is. */
  function GetDefaultImage(): (r: string)
    ensures StartsWith(r, "http")
  {
    DefaultImage
  }

  /** A reference `getImageUrl` passes through unchanged: it starts with `http` or `data:`. */
  predicate IsUrl(s: string) {
    StartsWith(s, "http") || StartsWith(s, "data:")
  }

  /** `name.split('/').pop().split('\\').pop()`: the file name without any directory. */
  function CleanName(name: string): (r: string)
    ensures '/' !in r && '\\' !in r
    ensures |r| <= |name| && r == name[|name| - |r|..]
    ensures |r| < |name| ==> name[|name| - |r| - 1] == '/' || name[|name| - |r| - 1] == '\\'
  {
    var afterSlash := AfterLast(name, '/');
    var r := AfterLast(afterSlash, '\\');
    SuffixOfSuffix(name, afterSlash, r);
    SuffixKeepsAbsent(afterSlash, r, '/');
    if |r| < |afterSlash| then
      assert name[|name| - |r| - 1] == afterSlash[|afterSlash| - |r| - 1];
      r
    else r
  }

  /** A suffix of a suffix of `s` is a suffix of `s`. */
  lemma SuffixOfSuffix(s: string, t: string, u: string)
    requires |t| <= |s| && t == s[|s| - |t|..]
    requires |u| <= |t| && u == t[|t| - |u|..]
    ensures |u| <= |s| && u == s[|s| - |u|..]
  {
  }

  /** A character missing from `s` is missing from every suffix of `s`. */
  lemma SuffixKeepsAbsent(s: string, t: string, c: char)
    requires c !in s
    requires |t| <= |s| && t == s[|s| - |t|..]
    ensures c !in t
  {
  }

  /**
   * `getImageUrl(imageName)`, with `None` for `null`: no name (or an empty
   * one) gives the placeholder, a URL is kept as it is, and any other name
   * loses its directories and is looked up in the photo folder, except
   * `default.jpg`, which gives the placeholder.
   */
  function GetImageUrl(imageName: Option<string>): (r: string)
    ensures imageName.None? || imageName.value == "" ==> r == GetDefaultImage()
    ensures imageName.Some? && IsUrl(imageName.value) ==> r == imageName.value
    ensures imageName.Some? && imageName.value != "" && !IsUrl(imageName.value) ==>
      (CleanName(imageName.value) == DefaultFileName ==> r == GetDefaultImage()) &&
      (CleanName(imageName.value) != DefaultFileName ==> r == ImageDir + CleanName(imageName.value))
    ensures r != ""
  {
    match imageName
    case None => GetDefaultImage()
    case Some(name) =>
      if name == "" then GetDefaultImage()
      else if IsUrl(name) then name
      else
        var clean := CleanName(name);
        if clean == DefaultFileName then GetDefaultImage() else ImageDir + clean
  }

  /** A bare file name that is neither a URL nor `default.jpg` is looked up in the photo folder. */
  lemma LocalFileName(name: string)
    requires name != "" && !IsUrl(name) && '/' !in name && '\\' !in name && name != DefaultFileName
    ensures GetImageUrl(Some(name)) == ImageDir + name
  {
    CleanNameOfPlainName(name);
  }

  /** A name with no separator is its own clean name. */
  lemma CleanNameOfPlainName(name: string)
    requires '/' !in name && '\\' !in name
    ensures CleanName(name) == name
  {
    AfterLastAbsent(name, '/');
    AfterLastAbsent(name, '\\');
  }

  /** A name in a directory has the clean name of its last part. */
  lemma CleanNameInDirectory(dir: string, name: string)
    requires '/' !in name && '\\' !in name
    ensures CleanName(dir + "/" + name) == name
  {
    assert dir + "/" + name == dir + ['/'] + name;
    AfterLastTail(dir, '/', name);
    AfterLastAbsent(name, '\\');
  }

  /** A Windows-style path with no `/` in it has the clean name of its last `\\` part. */
  lemma CleanNameInBackslashDirectory(dir: string, name: string)
    requires '/' !in dir && '/' !in name && '\\' !in name
    ensures CleanName(dir + "\\" + name) == name
  {
    var path := dir + "\\" + name;
    assert path == dir + ['\\'] + name;
    assert '/' !in path by {
      forall k | 0 <= k < |path| ensures path[k] != '/' {
        if k < |dir| { assert path[k] == dir[k]; }
        else if k > |dir| { assert path[k] == name[k - |dir| - 1]; }
      }
    }
    AfterLastAbsent(path, '/');
    AfterLastTail(dir, '\\', name);
  }

  /** `default.jpg` is neither a URL nor a path. */
  lemma DefaultFileNameIsPlain()
    ensures !IsUrl(DefaultFileName) && '/' !in DefaultFileName && '\\' !in DefaultFileName
  {
    var name := DefaultFileName;
    assert name[..4][0] == 'd' && "http"[0] == 'h';
    assert name[..5][1] == 'e' && "data:"[1] == 'a';
  }

  /** A name that is not a URL and whose clean name is `default.jpg` gives the placeholder. */
  lemma CleanDefaultIsPlaceholder(name: string)
    requires name != "" && !IsUrl(name) && CleanName(name) == DefaultFileName
    ensures GetImageUrl(Some(name)) == GetDefaultImage()
  {
  }

  /** `default.jpg` in any directory gives the placeholder, as the bare `default.jpg` does. */
  lemma DefaultInAnyDirectory(dir: string)
    requires !IsUrl(dir + "/" + DefaultFileName)
    ensures GetImageUrl(Some(dir + "/" + DefaultFileName)) == GetDefaultImage()
    ensures GetImageUrl(Some(DefaultFileName)) == GetDefaultImage()
  {
    DefaultFileNameIsPlain();
    CleanNameInDirectory(dir, DefaultFileName);
    CleanDefaultIsPlaceholder(dir + "/" + DefaultFileName);
    CleanNameOfPlainName(DefaultFileName);
    CleanDefaultIsPlaceholder(DefaultFileName);
  }

  /** `x/y/default.jpg` behaves like `default.jpg`. */
  lemma NestedDefaultIsPlaceholder()
    ensures GetImageUrl(Some("x/y/default.jpg")) == GetDefaultImage()
  {
    var name := "x/y" + "/" + DefaultFileName;
    assert name == "x/y/default.jpg";
    assert !IsUrl(name) by {
      assert name[..4][0] == 'x' && "http"[0] == 'h' && "data:"[0] == 'd';
    }
    DefaultInAnyDirectory("x/y");
  }

  /** A path into the photo folder is not a URL. */
  lemma PhotoPathIsNotUrl(clean: string)
    ensures !IsUrl(ImageDir + clean)
  {
    var p := ImageDir + clean;
    assert p[0] == 'a';
  }

  /** A path into the photo folder resolves to itself, unless its file name is `default.jpg`. */
  lemma PhotoPathResolvesToItself(clean: string)
    requires '/' !in clean && '\\' !in clean && clean != DefaultFileName
    ensures GetImageUrl(Some(ImageDir + clean)) == ImageDir + clean
  {
    PhotoPathIsNotUrl(clean);
    assert ImageDir + clean == PhotoFolder + "/" + clean;
    CleanNameInDirectory(PhotoFolder, clean);
  }

  /** Resolving an already resolved URL changes nothing. */
  lemma GetImageUrlIdempotent(imageName: Option<string>)
    ensures GetImageUrl(Some(GetImageUrl(imageName))) == GetImageUrl(imageName)
  {
    var r := GetImageUrl(imageName);
    if !IsUrl(r) {
      // Only the photo-folder branch yields a non-URL.
      var clean := CleanName(imageName.value);
      PhotoPathResolvesToItself(clean);
    }
  }

  /** The last segment of `location.pathname`: `pathname.split('/').pop()`. */
  function CurrentPage(pathname: string): (r: string)
    ensures '/' !in r
    ensures |r| <= |pathname| && r == pathname[|pathname| - |r|..]
    ensures |r| < |pathname| ==> pathname[|pathname| - |r| - 1] == '/'
  {
    AfterLast(pathname, '/')
  }

  /**
   * The `setActiveNavLink` test for one link: its `href` is the current page,
   * or the current page is empty or `index.html` and the link is `index.html`.
   */
  predicate IsActiveLink(href: string, currentPage: string) {
    href == currentPage ||
    (currentPage == "" && href == "index.html") ||
    (currentPage == "index.html" && href == "index.html")
  }

  /** The rule reduces to: the link is the current page, or the site root stands for `index.html`. */
  lemma IsActiveLinkReduced(href: string, currentPage: string)
    ensures IsActiveLink(href, currentPage) <==>
      href == currentPage || (currentPage == "" && href == "index.html")
  {
  }

  /** The `active` mark of every navigation link, in document order, for the page at `pathname`. */
  function ActiveLinks(hrefs: seq<string>, pathname: string): (r: seq<bool>)
    ensures |r| == |hrefs|
    ensures forall i :: 0 <= i < |hrefs| ==>
      (r[i] <==> hrefs[i] == AfterLast(pathname, '/') ||
                 (AfterLast(pathname, '/') == "" && hrefs[i] == "index.html"))
  {
    var page := CurrentPage(pathname);
    seq(|hrefs|, i requires 0 <= i < |hrefs| => IsActiveLink(hrefs[i], page))
  }

  /** With distinct, non-empty hrefs at most one link is marked active. */
  lemma AtMostOneActiveLink(hrefs: seq<string>, pathname: string, i: int, j: int)
    requires forall a, b :: 0 <= a < b < |hrefs| ==> hrefs[a] != hrefs[b]
    requires forall a :: 0 <= a < |hrefs| ==> hrefs[a] != ""
    requires 0 <= i < |hrefs| && 0 <= j < |hrefs|
    requires ActiveLinks(hrefs, pathname)[i] && ActiveLinks(hrefs, pathname)[j]
    ensures i == j
  {
  }

  /** What the home page's featured section ends up showing. */
  datatype Featured = Cards(items: seq<Item>) | LoadError

  /**
   * `loadFeaturedEarrings`, with the fetched document as input (`None` when
   * the request failed): a missing `earings` list counts as empty, an empty
   * list takes the error path, and otherwise the first `min(3, n)` entries
   * are featured.
   */
  function FeaturedEarrings(fetched: Option<Document>): (r: Featured)
    ensures r.LoadError? <==>
      fetched.None? || fetched.value.earings.None? || fetched.value.earings.value == []
    ensures r.Cards? ==>
      var all := fetched.value.earings.value;
      1 <= |r.items| <= FeaturedMax && |r.items| == Min(FeaturedMax, |all|) &&
      r.items == all[..|r.items|]
  {
    match fetched
    case None => LoadError
    case Some(doc) =>
      var all := doc.earings.GetOr([]);
      if |all| == 0 then LoadError
      else Cards(Slice(all, 0, Min(FeaturedMax, |all|)))
  }

  /** The photo a featured card shows: the entry's first photo, or the placeholder when it has none. */
  function CardImage(e: Item): (r: string)
    ensures |e.images| == 0 || e.images[0] == "" ==> r == GetDefaultImage()
    ensures |e.images| > 0 && IsUrl(e.images[0]) ==> r == e.images[0]
  {
    GetImageUrl(if |e.images| > 0 && e.images[0] != "" then Some(e.images[0]) else None)
  }

  /** A catalog of at least three entries features exactly its first three. */
  lemma FeaturedOfLargeCatalog(all: seq<Item>)
    requires |all| >= 3
    ensures FeaturedEarrings(Some(Document(Some(all)))) == Cards(all[..3])
  {
  }
}
