/** Entity classification, derived attributes and the well-known-entity lookups
    (src/lib/model.ts). */
module Model {
  import opened Wrappers
  import opened Content
  import opened Seqs
  import RichText

  // ---------------------------------------------------------------------------
  // Classification

  predicate IsAsset(r: Record) {
    r.sys.sysType == "Asset"
  }

  predicate IsStaticPage(r: Record) {
    r.sys.sysType == "Entry" && r.sys.contentTypeId == "staticPage"
  }

  predicate IsAllNewsPage(r: Record) {
    r.sys.sysType == "Entry" && r.sys.contentTypeId == "allNewsPage"
  }

  predicate IsProject(r: Record) {
    r.sys.sysType == "Entry" && r.sys.contentTypeId == "project"
  }

  predicate IsActivity(r: Record) {
    r.sys.sysType == "Entry" && r.sys.contentTypeId == "activity"
  }

  predicate IsContactMethod(r: Record) {
    r.sys.sysType == "Entry" && r.sys.contentTypeId == "contactMethod"
  }

  predicate IsPost(r: Record) {
    r.sys.sysType == "Entry" && r.sys.contentTypeId == "post"
  }

  /** The entity kinds the site knows. */
  datatype Kind = StaticPage | AllNewsPage | Activity | Project | ContactMethod | Post | Asset

  /** The kind predicate for `k`. */
  predicate Is(k: Kind, r: Record) {
    match k
    case StaticPage => IsStaticPage(r)
    case AllNewsPage => IsAllNewsPage(r)
    case Activity => IsActivity(r)
    case Project => IsProject(r)
    case ContactMethod => IsContactMethod(r)
    case Post => IsPost(r)
    case Asset => IsAsset(r)
  }

  /** The single kind a record has, if any. The seven kind predicates are mutually exclusive:
      a record satisfies the predicate of exactly the kind returned, and of no other; a
      record that is neither an entry nor an asset (an unresolved link) has no kind. */
  function Classify(r: Record): (k: Option<Kind>)
    ensures forall kind :: Is(kind, r) <==> k == Some(kind)
    ensures !HasFields(r) ==> k == None
  {
    if IsAsset(r) then Some(Asset)
    else if IsStaticPage(r) then Some(StaticPage)
    else if IsAllNewsPage(r) then Some(AllNewsPage)
    else if IsProject(r) then Some(Project)
    else if IsActivity(r) then Some(Activity)
    else if IsContactMethod(r) then Some(ContactMethod)
    else if IsPost(r) then Some(Post)
    else None
  }

  // ---------------------------------------------------------------------------
  // Derived attributes

  /** A value placed in a template literal: an absent value is spelled "undefined". */
  function Interpolate(s: Option<string>): string {
    if s.Some? then s.value else "undefined"
  }

  /** The title shown for a record: the name of activities and projects, the title of static
      pages, the all-news page, assets and posts, and nothing for contact methods and
      unclassified records. */
  function PageTitle(r: Record): (t: Option<string>)
    ensures Classify(r) in {Some(Activity), Some(Project)} ==> t == r.fields.name
    ensures Classify(r) in {Some(StaticPage), Some(AllNewsPage), Some(Asset), Some(Post)} ==> t == r.fields.title
    ensures Classify(r) in {None, Some(ContactMethod)} ==> t == None
  {
    if IsActivity(r) then r.fields.name
    else if IsProject(r) then r.fields.name
    else if IsStaticPage(r) then r.fields.title
    else if IsAllNewsPage(r) then r.fields.title
    else if IsAsset(r) then r.fields.title
    else if IsPost(r) then r.fields.title
    else None
  }

  /** The file name an asset contributes to its local path. */
  function AssetFileName(r: Record): string {
    if r.fields.file.Some? then r.fields.file.value.fileName else "undefined"
  }

  /** The canonical path of a record: `/{slug}/` for activities, static pages and posts,
      `/category/{slug}/` for projects and the all-news page, `/assets/{id}/{fileName}` for an
      asset when assets are served locally and the asset's file URL otherwise, and nothing for
      contact methods and unclassified records. `local` is the local-assets mode. */
  function PageHref(r: Record, local: bool): (h: Option<string>)
    ensures Classify(r) in {Some(Activity), Some(StaticPage), Some(Post)} ==> h == Some("/" + Interpolate(r.fields.slug) + "/")
    ensures Classify(r) in {Some(Project), Some(AllNewsPage)} ==> h == Some("/category/" + Interpolate(r.fields.slug) + "/")
    ensures IsAsset(r) && local ==> h == Some("/assets/" + r.sys.id + "/" + AssetFileName(r))
    ensures IsAsset(r) && !local ==> h == (if r.fields.file.Some? then Some(r.fields.file.value.url) else None)
    ensures Classify(r) in {None, Some(ContactMethod)} ==> h == None
  {
    if IsActivity(r) then Some("/" + Interpolate(r.fields.slug) + "/")
    else if IsProject(r) then Some("/category/" + Interpolate(r.fields.slug) + "/")
    else if IsStaticPage(r) then Some("/" + Interpolate(r.fields.slug) + "/")
    else if IsAllNewsPage(r) then Some("/category/" + Interpolate(r.fields.slug) + "/")
    else if IsAsset(r) then
      (if local then Some("/assets/" + r.sys.id + "/" + AssetFileName(r))
       else if r.fields.file.Some? then Some(r.fields.file.value.url)
       else None)
    else if IsPost(r) then Some("/" + Interpolate(r.fields.slug) + "/")
    else None
  }

  predicate StartsWith(s: string, prefix: string) {
    |prefix| <= |s| && s[..|prefix|] == prefix
  }

  const AssetsPrefix := "/assets/"
  const GeneratedRoot := "/generated"

  /** The source URL of a record's media: its path, moved under the output root exactly when
      the path is a local asset path, and unchanged otherwise. */
  function PageSrc(r: Record, local: bool): (s: Option<string>)
    ensures s != PageHref(r, local) <==> PageHref(r, local).Some? && StartsWith(PageHref(r, local).value, AssetsPrefix)
    ensures s != PageHref(r, local) ==> s == Some(GeneratedRoot + PageHref(r, local).value)
  {
    var href := PageHref(r, local);
    if href.Some? && StartsWith(href.value, AssetsPrefix) then
      assert |GeneratedRoot + href.value| != |href.value|;
      Some(GeneratedRoot + href.value)
    else href
  }

  /** The publication date, defined for posts only. */
  function PagePublishedOn(r: Record): (d: Option<Date>)
    ensures d.Some? ==> IsPost(r)
    ensures IsPost(r) ==> d == r.fields.publishedOn
  {
    if IsPost(r) then r.fields.publishedOn else None
  }

  /** An unresolved link matches no kind and derives no title, path, media source or date. */
  lemma UnresolvedDerivesNothing(r: Record, local: bool)
    requires !HasFields(r)
    ensures Classify(r) == None
    ensures PageTitle(r) == None && PageHref(r, local) == None
    ensures PageSrc(r, local) == None && PagePublishedOn(r) == None
  {
  }

  /** With local assets, an asset's media is served from `/generated/assets/{id}/{fileName}`. */
  lemma {:induction false} LocalAssetSrc(r: Record)
    requires IsAsset(r)
    ensures PageSrc(r, true) == Some("/generated/assets/" + r.sys.id + "/" + AssetFileName(r))
  {
    var h := "/assets/" + r.sys.id + "/" + AssetFileName(r);
    assert h[..|AssetsPrefix|] == AssetsPrefix;
    assert GeneratedRoot + h == "/generated/assets/" + r.sys.id + "/" + AssetFileName(r);
  }

  /** A `/{slug}/` path is a local asset path exactly when the slug is "assets" or starts
      with "assets/". */
  lemma {:induction false} SlugPathIsAssetPath(slug: string)
    ensures StartsWith("/" + slug + "/", AssetsPrefix) <==> slug == "assets" || StartsWith(slug, "assets/")
  {
    var h := "/" + slug + "/";
    if |slug| == 6 {
      assert h[..|AssetsPrefix|] == h;
      assert h[1..7] == slug && AssetsPrefix[1..7] == "assets";
    } else if |slug| >= 7 {
      assert h[..|AssetsPrefix|] == "/" + slug[..7];
      assert AssetsPrefix == "/" + "assets/";
      if h[..|AssetsPrefix|] == AssetsPrefix {
        assert slug[..7] == h[1..8] == AssetsPrefix[1..8] == "assets/";
      }
    }
  }

  /** The media source of an entry page is its path, with one exception: a page of the
      `/{slug}/` kinds whose slug is "assets" or starts with "assets/" has a path that the
      media-source rule rewrites as though it were an asset's. */
  lemma {:induction false} EntrySrcIsHref(r: Record, local: bool)
    requires Classify(r) in {Some(Activity), Some(StaticPage), Some(Post), Some(Project), Some(AllNewsPage)}
    ensures Classify(r) in {Some(Project), Some(AllNewsPage)} ==> PageSrc(r, local) == PageHref(r, local)
    ensures Classify(r) in {Some(Activity), Some(StaticPage), Some(Post)} ==>
      var slug := Interpolate(r.fields.slug);
      (PageSrc(r, local) == PageHref(r, local) <==> !(slug == "assets" || StartsWith(slug, "assets/")))
  {
    var slug := Interpolate(r.fields.slug);
    var h := PageHref(r, local).value;
    if Classify(r) in {Some(Project), Some(AllNewsPage)} {
      assert h[1] == 'c' != AssetsPrefix[1];
    } else {
      assert h == "/" + slug + "/";
      SlugPathIsAssetPath(slug);
    }
  }

  /** An activity whose slug is "assets" has path `/assets/`, which the media-source rule
      rewrites as though it were an asset. */
  lemma AssetsSlugIsRewritten(r: Record, local: bool)
    requires IsActivity(r) && r.fields.slug == Some("assets")
    ensures PageHref(r, local) == Some("/assets/")
    ensures PageSrc(r, local) == Some("/generated/assets/")
  {
    assert "/" + "assets" + "/" == "/assets/";
    assert StartsWith("/assets/", AssetsPrefix);
    assert GeneratedRoot + "/assets/" == "/generated/assets/";
  }

  /** Within one namespace, paths determine slugs: two records of the `/{slug}/` kinds, or two
      of the `/category/{slug}/` kinds, with the same path have the same slug. */
  lemma {:induction false} HrefDeterminesSlug(a: Record, b: Record, local: bool)
    requires
      || (Classify(a) in {Some(Activity), Some(StaticPage), Some(Post)} && Classify(b) in {Some(Activity), Some(StaticPage), Some(Post)})
      || (Classify(a) in {Some(Project), Some(AllNewsPage)} && Classify(b) in {Some(Project), Some(AllNewsPage)})
    requires PageHref(a, local) == PageHref(b, local)
    ensures Interpolate(a.fields.slug) == Interpolate(b.fields.slug)
  {
    var x, y := Interpolate(a.fields.slug), Interpolate(b.fields.slug);
    var p := if Classify(a) in {Some(Project), Some(AllNewsPage)} then "/category/" else "/";
    var h := PageHref(a, local).value;
    assert h == p + x + "/" == p + y + "/";
    assert x == h[|p|..|h| - 1] == y;
  }

  /** Paths of different kinds may collide: an activity and a static page with the same slug
      have the same path. */
  lemma ActivityAndStaticPageCollide(a: Record, b: Record, local: bool)
    requires IsActivity(a) && IsStaticPage(b) && a.fields.slug == b.fields.slug
    ensures PageHref(a, local) == PageHref(b, local)
  {
  }

  // ---------------------------------------------------------------------------
  // Well-known entities

  const HomeSlug := "indeks"
  const ActivitiesSlug := "nasze-aktywnosci"
  const ProjectsSlug := "nasze-projekty"
  const ContactSlug := "kontakt-2"

  /** The test `item.fields.slug === slug`. */
  function HasSlug(slug: string): Record -> bool {
    (r: Record) => r.fields.slug == Some(slug)
  }

  /** The test `node.nodeType === tag`. */
  function HasTag(tag: string): Node -> bool {
    (n: Node) => n.Tag() == tag
  }

  /** The top-level children of a record's `content` document, when it has one. */
  function DocumentChildren(r: Record): Option<seq<Node>> {
    match r.fields.content
    case Some(Element(_, _, children)) => Some(children)
    case _ => None
  }

  /** The top-level children of the content of the first item carrying `slug`. It fails when no
      item carries the slug, or when the first one has no content document to read. */
  function TopLevelContent(items: seq<Record>, slug: string): (r: Result<seq<Node>, Error>)
    ensures r == Failure(MissingWellKnownEntity(slug)) <==> FirstIndex(items, HasSlug(slug)).None?
    ensures r.Success? ==>
      FirstIndex(items, HasSlug(slug)).Some? && DocumentChildren(items[FirstIndex(items, HasSlug(slug)).value]) == Some(r.value)
    ensures r.Failure? && r.error != MissingWellKnownEntity(slug) ==>
      r.error == MissingDocument(slug) && FirstIndex(items, HasSlug(slug)).Some?
      && DocumentChildren(items[FirstIndex(items, HasSlug(slug)).value]) == None
  {
    var found := Filter(items, HasSlug(slug));
    FilterHead(items, HasSlug(slug));
    if found == [] then Failure(MissingWellKnownEntity(slug))
    else match DocumentChildren(found[0])
      case None => Failure(MissingDocument(slug))
      case Some(children) => Success(children)
  }

  /** `sub` is exactly the nodes of `all` tagged `tag`, in document order: a subsequence of
      `all`, made of `tag` nodes only, and missing none of them. */
  predicate SelectsTag(sub: seq<Node>, all: seq<Node>, tag: string) {
    && IsSubsequence(sub, all)
    && (forall n | n in sub :: n.Tag() == tag)
    && |sub| == Count(all, HasTag(tag))
  }

  /** The embedded-entry blocks among the top-level content of the first item carrying `slug`,
      in document order; it fails exactly when the content cannot be read. With the four
      reserved slugs this is the home page's links, the activities and projects menus, and the
      contact methods. */
  function WellKnownLinks(items: seq<Record>, slug: string): (r: Result<seq<Node>, Error>)
    ensures r.Failure? <==> TopLevelContent(items, slug).Failure?
    ensures r.Failure? ==> r.error == TopLevelContent(items, slug).error
    ensures r.Success? ==> SelectsTag(r.value, TopLevelContent(items, slug).value, RichText.EmbeddedEntryBlockTag)
  {
    var children :- TopLevelContent(items, slug);
    Success(Filter(children, HasTag(RichText.EmbeddedEntryBlockTag)))
  }

  /** The characterisation in `SelectsTag` determines the selection: it is the filter. */
  lemma SelectsTagIsFilter(sub: seq<Node>, all: seq<Node>, tag: string)
    requires SelectsTag(sub, all, tag)
    ensures sub == Filter(all, HasTag(tag))
  {
    FilterUnique(sub, all, HasTag(tag));
  }

  /** The home page's logo node: the first embedded-asset block among the top-level content
      of the home index. It fails when the index or its content is missing; a missing logo is
      `None` (the source asserts it away and fails only where the logo is used). */
  function GetHomeLogo(items: seq<Record>): (r: Result<Option<Node>, Error>)
    ensures r.Failure? <==> TopLevelContent(items, HomeSlug).Failure?
    ensures r.Success? ==>
      var children := TopLevelContent(items, HomeSlug).value;
      var i := FirstIndex(children, HasTag(RichText.EmbeddedAssetBlockTag));
      && (r.value.None? <==> forall n | n in children :: n.Tag() != RichText.EmbeddedAssetBlockTag)
      && (r.value.Some? ==> i.Some? && r.value.value == children[i.value] && r.value.value.Tag() == RichText.EmbeddedAssetBlockTag)
  {
    var children :- TopLevelContent(items, HomeSlug);
    var logos := Filter(children, HasTag(RichText.EmbeddedAssetBlockTag));
    FilterHead(children, HasTag(RichText.EmbeddedAssetBlockTag));
    Success(if logos == [] then None else Some(logos[0]))
  }
}
