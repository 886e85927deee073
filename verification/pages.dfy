/** Page composition (src/components/Page.tsx): the related-posts selection and its ordering,
    the kind-driven structure of an article, and the home page. */
module Pages {
  import opened Wrappers
  import opened Content
  import opened Seqs
  import opened Model
  import RichText
  import opened Render

  /** The rendering configuration: the local-assets mode, and the Polish-locale formatting
      the pages use (upper-casing a title, writing a date in the long format), which the model
      leaves opaque. */
  datatype Config = Config(localAssets: bool, upperCase: string -> string, formatDate: Date -> string)

  // ---------------------------------------------------------------------------
  // Dates

  /** `Temporal.PlainDate.compare`: -1, 0 or 1 as `a` is before, equal to or after `b`. */
  function CompareDates(a: Date, b: Date): (c: int)
    ensures -1 <= c <= 1
    ensures c == 0 <==> a == b
  {
    if a.year != b.year then (if a.year < b.year then -1 else 1)
    else if a.month != b.month then (if a.month < b.month then -1 else 1)
    else if a.day != b.day then (if a.day < b.day then -1 else 1)
    else 0
  }

  /** The comparison is antisymmetric and transitive: a total order on dates. */
  lemma CompareDatesOrder(a: Date, b: Date, c: Date)
    ensures CompareDates(a, b) == -CompareDates(b, a)
    ensures CompareDates(a, b) >= 0 && CompareDates(b, c) >= 0 ==> CompareDates(a, c) >= 0
  {
  }

  predicate Dated(r: Record) {
    r.fields.publishedOn.Some?
  }

  function DateOf(r: Record): Date
    requires Dated(r)
  {
    r.fields.publishedOn.value
  }

  /** The test `publishedOn` equals `d`. */
  function OnDate(d: Date): Record -> bool {
    (r: Record) => r.fields.publishedOn == Some(d)
  }

  // ---------------------------------------------------------------------------
  // Related posts

  const AllNewsSlug := "aktualnosci"

  /** The test `activity.sys.id === id`. */
  function HasId(id: string): Record -> bool {
    (r: Record) => r.sys.id == id
  }

  /** Whether `item` is one of the posts shown below `page`: for a project, the posts whose
      project is that project; for an activity, the posts listing that activity; for the page
      with slug "aktualnosci", every post; for any other page, none. */
  predicate RelatedTo(page: Record, item: Record) {
    && IsPost(item)
    && if IsProject(page) then item.fields.project.Some? && item.fields.project.value.sys.id == page.sys.id
       else if IsActivity(page) then item.fields.activities.Some? && |Filter(item.fields.activities.value, HasId(page.sys.id))| > 0
       else page.fields.slug == Some(AllNewsSlug)
  }

  function Related(page: Record): Record -> bool {
    (item: Record) => RelatedTo(page, item)
  }

  /** The selected posts in collection order, before sorting. */
  function Candidates(items: seq<Record>, page: Record): seq<Record> {
    Filter(items, Related(page))
  }

  /** `a` may precede `b` in the newest-first order: both are dated and `b` is not newer. */
  predicate Precedes(a: Record, b: Record) {
    Dated(a) && Dated(b) && CompareDates(DateOf(a), DateOf(b)) >= 0
  }

  /** Newest first: every post is dated and none is followed by a strictly newer one. */
  predicate NewestFirst(s: seq<Record>) {
    forall i, j | 0 <= i < j < |s| :: Precedes(s[i], s[j])
  }

  /** What sorting reads: the comparator reads both dates, and it is called only when there
      are at least two posts. */
  predicate SortReady(s: seq<Record>) {
    |s| <= 1 || forall y | y in s :: Dated(y)
  }

  /** Inserts `x` into `sorted` ahead of the first post that is not strictly newer than it. */
  function Insert(x: Record, sorted: seq<Record>): (r: seq<Record>)
    requires sorted != [] ==> Dated(x) && forall y | y in sorted :: Dated(y)
    ensures multiset(r) == multiset(sorted) + multiset{x}
  {
    if sorted == [] then [x]
    else if CompareDates(DateOf(sorted[0]), DateOf(x)) > 0 then
      assert sorted == [sorted[0]] + sorted[1..];
      [sorted[0]] + Insert(x, sorted[1..])
    else [x] + sorted
  }

  /** `toSorted` with the comparator `-compare(a.publishedOn, b.publishedOn)`: a stable sort,
      newest first. */
  function SortNewestFirst(s: seq<Record>): (r: seq<Record>)
    requires SortReady(s)
    ensures multiset(r) == multiset(s)
  {
    if s == [] then []
    else
      assert s == [s[0]] + s[1..];
      var rest := SortNewestFirst(s[1..]);
      assert forall y | y in rest :: y in multiset(s[1..]);
      Insert(s[0], rest)
  }

  /** A post that may precede every post of a newest-first list can be put in front of it. */
  lemma PrependNewestFirst(x: Record, s: seq<Record>)
    requires NewestFirst(s)
    requires forall y | y in s :: Precedes(x, y)
    ensures NewestFirst([x] + s)
  {
    forall i, j | 0 <= i < j < |[x] + s|
      ensures Precedes(([x] + s)[i], ([x] + s)[j])
    {
      assert ([x] + s)[j] == s[j - 1];
      if 0 < i {
        assert ([x] + s)[i] == s[i - 1];
      }
    }
  }

  lemma {:induction false} InsertNewestFirst(x: Record, sorted: seq<Record>)
    requires sorted != [] ==> Dated(x) && forall y | y in sorted :: Dated(y)
    requires NewestFirst(sorted)
    ensures NewestFirst(Insert(x, sorted))
  {
    if sorted != [] {
      var head, tail := sorted[0], sorted[1..];
      assert sorted == [head] + tail;
      if CompareDates(DateOf(head), DateOf(x)) > 0 {
        InsertNewestFirst(x, tail);
        var rest := Insert(x, tail);
        forall y | y in rest
          ensures Precedes(head, y)
        {
          assert y in multiset(rest);
          if y != x {
            assert y in tail;
            var k :| 0 <= k < |tail| && tail[k] == y;
            assert sorted[k + 1] == y;
          }
        }
        PrependNewestFirst(head, rest);
      } else {
        forall y | y in sorted
          ensures Precedes(x, y)
        {
          var k :| 0 <= k < |sorted| && sorted[k] == y;
          if 0 < k {
            assert Precedes(head, y);
            CompareDatesOrder(DateOf(x), DateOf(head), DateOf(y));
          }
          CompareDatesOrder(DateOf(head), DateOf(x), DateOf(x));
        }
        PrependNewestFirst(x, sorted);
      }
    }
  }

  /** The sort orders newest first. */
  lemma {:induction false} SortIsNewestFirst(s: seq<Record>)
    requires SortReady(s)
    ensures NewestFirst(SortNewestFirst(s))
  {
    if s != [] {
      var rest := SortNewestFirst(s[1..]);
      SortIsNewestFirst(s[1..]);
      assert forall y | y in rest :: y in multiset(s[1..]);
      InsertNewestFirst(s[0], rest);
    }
  }

  /** Selecting from a sequence that starts with `a`. */
  lemma FilterCons<T>(a: T, s: seq<T>, p: T -> bool)
    ensures Filter([a] + s, p) == (if p(a) then [a] else []) + Filter(s, p)
  {
    assert ([a] + s)[0] == a && ([a] + s)[1..] == s;
  }

  /** Insertion moves `x` only past strictly newer posts, so among the posts of any one date
      `x` keeps its place in front. */
  lemma {:induction false} InsertStable(x: Record, sorted: seq<Record>, d: Date)
    requires sorted != [] ==> Dated(x) && forall y | y in sorted :: Dated(y)
    ensures Filter(Insert(x, sorted), OnDate(d)) == Filter([x] + sorted, OnDate(d))
  {
    if sorted != [] && CompareDates(DateOf(sorted[0]), DateOf(x)) > 0 {
      var head, tail := sorted[0], sorted[1..];
      assert sorted == [head] + tail;
      InsertStable(x, tail, d);
      FilterCons(head, Insert(x, tail), OnDate(d));
      FilterCons(x, tail, OnDate(d));
      FilterCons(x, sorted, OnDate(d));
      FilterCons(head, tail, OnDate(d));
    }
  }

  /** The sort is stable: for every date, the posts of that date appear in their original
      order. */
  lemma {:induction false} SortIsStable(s: seq<Record>, d: Date)
    requires SortReady(s)
    ensures Filter(SortNewestFirst(s), OnDate(d)) == Filter(s, OnDate(d))
  {
    if s != [] {
      assert s == [s[0]] + s[1..];
      var rest := SortNewestFirst(s[1..]);
      SortIsStable(s[1..], d);
      assert forall y | y in rest :: y in multiset(s[1..]);
      InsertStable(s[0], rest, d);
      FilterCons(s[0], rest, OnDate(d));
      FilterCons(s[0], s[1..], OnDate(d));
    }
  }

  /** The posts shown below `page`: a permutation of the related posts of the collection. */
  function RelatedPosts(items: seq<Record>, page: Record): (r: seq<Record>)
    requires SortReady(Candidates(items, page))
    ensures multiset(r) == multiset(Candidates(items, page))
    ensures forall x | x in r :: x in Candidates(items, page)
  {
    var r := SortNewestFirst(Candidates(items, page));
    assert forall x | x in r :: x in multiset(r);
    r
  }

  /** A post is shown below `page` exactly when it is in the collection and related to the
      page. */
  lemma RelatedPostsMembers(items: seq<Record>, page: Record, x: Record)
    requires SortReady(Candidates(items, page))
    ensures x in RelatedPosts(items, page) <==> x in items && RelatedTo(page, x)
  {
    assert x in RelatedPosts(items, page) <==> x in multiset(Candidates(items, page));
  }

  /** The posts below a page are newest first, and those published on the same date keep
      their collection order. */
  lemma RelatedPostsOrder(items: seq<Record>, page: Record, d: Date)
    requires SortReady(Candidates(items, page))
    ensures NewestFirst(RelatedPosts(items, page))
    ensures Filter(RelatedPosts(items, page), OnDate(d)) == Filter(Candidates(items, page), OnDate(d))
  {
    SortIsNewestFirst(Candidates(items, page));
    SortIsStable(Candidates(items, page), d);
  }

  /** Below a project, exactly the posts whose project has the project's id. */
  lemma ProjectPosts(items: seq<Record>, page: Record, x: Record)
    requires IsProject(page)
    requires SortReady(Candidates(items, page))
    ensures x in RelatedPosts(items, page) <==>
      x in items && IsPost(x) && x.fields.project.Some? && x.fields.project.value.sys.id == page.sys.id
  {
    RelatedPostsMembers(items, page, x);
  }

  /** Below an activity, exactly the posts listing an activity with the page's id. */
  lemma ActivityPosts(items: seq<Record>, page: Record, x: Record)
    requires IsActivity(page)
    requires SortReady(Candidates(items, page))
    ensures x in RelatedPosts(items, page) <==>
      x in items && IsPost(x) && x.fields.activities.Some?
      && exists a | a in x.fields.activities.value :: a.sys.id == page.sys.id
  {
    RelatedPostsMembers(items, page, x);
    if x.fields.activities.Some? {
      var listed := Filter(x.fields.activities.value, HasId(page.sys.id));
      if listed != [] {
        assert listed[0] in listed;
      }
    }
  }

  /** Below any other page: every post for the "aktualnosci" page, and none otherwise. */
  lemma OtherPagePosts(items: seq<Record>, page: Record)
    requires !IsProject(page) && !IsActivity(page)
    requires SortReady(Candidates(items, page))
    ensures page.fields.slug == Some(AllNewsSlug) ==> forall x :: x in RelatedPosts(items, page) <==> x in items && IsPost(x)
    ensures page.fields.slug != Some(AllNewsSlug) ==> RelatedPosts(items, page) == []
  {
    if page.fields.slug != Some(AllNewsSlug) {
      assert Candidates(items, page) == [];
    } else {
      forall x
        ensures x in RelatedPosts(items, page) <==> x in items && IsPost(x)
      {
        RelatedPostsMembers(items, page, x);
      }
    }
  }

  /** A project "p1" with two posts, one in the project and one outside it: only the first is
      shown below the project. */
  lemma ProjectPageExample(project: Record, post1: Record, post2: Record)
    requires IsProject(project) && project.fields.slug == Some("p1")
    requires IsPost(post1) && post1.fields.project == Some(project) && post1.fields.publishedOn == Some(Date(2024, 3, 1))
    requires IsPost(post2) && post2.fields.project == None && post2.fields.publishedOn.Some?
    ensures RelatedPosts([project, post1, post2], project) == [post1]
  {
    var items := [project, post1, post2];
    FilterCons(project, [post1, post2], Related(project));
    FilterCons(post1, [post2], Related(project));
    FilterCons(post2, [], Related(project));
    assert [post2] == [post2] + [];
    assert Candidates(items, project) == [post1];
    assert SortNewestFirst([post1]) == Insert(post1, SortNewestFirst([])) == [post1];
  }

  /** Posts dated 2024-01-01, 2025-06-01 and 2024-01-01 come out as the second, then the first
      and third in their original order. */
  lemma SortExample(a: Record, b: Record, c: Record)
    requires a.fields.publishedOn == Some(Date(2024, 1, 1))
    requires b.fields.publishedOn == Some(Date(2025, 6, 1))
    requires c.fields.publishedOn == Some(Date(2024, 1, 1))
    ensures SortNewestFirst([a, b, c]) == [b, a, c]
  {
    assert [a, b, c][1..] == [b, c] && [b, c][1..] == [c] && [c][1..] == [];
    var sc := SortNewestFirst([c]);
    assert sc == [c];
    var sbc := SortNewestFirst([b, c]);
    InsertFirst(b, sc);
    assert sbc == [b, c];
    InsertPast(a, sbc);
    InsertFirst(a, [c]);
  }

  /** Insertion ahead of a list whose first post is not newer. */
  lemma InsertFirst(x: Record, s: seq<Record>)
    requires s != [] && Dated(x) && forall y | y in s :: Dated(y)
    requires CompareDates(DateOf(s[0]), DateOf(x)) <= 0
    ensures Insert(x, s) == [x] + s
  {
  }

  /** Insertion past a first post that is strictly newer. */
  lemma InsertPast(x: Record, s: seq<Record>)
    requires s != [] && Dated(x) && forall y | y in s :: Dated(y)
    requires CompareDates(DateOf(s[0]), DateOf(x)) > 0
    ensures Insert(x, s) == [s[0]] + Insert(x, s[1..])
  {
  }

  // ---------------------------------------------------------------------------
  // Articles

  /** Static pages, activities and posts carry a rich-text body. */
  predicate HasBody(r: Record) {
    IsStaticPage(r) || IsActivity(r) || IsPost(r)
  }

  /** The body field: `content` for static pages and posts, `description` for activities. */
  function BodyField(r: Record): Option<Node> {
    if IsStaticPage(r) then r.fields.content
    else if IsActivity(r) then r.fields.description
    else if IsPost(r) then r.fields.content
    else None
  }

  /** What rendering `r` as an article reads without checking: the body of a kind that has
      one, with the targets of its links. */
  predicate ArticleReady(r: Record) {
    HasBody(r) ==> BodyField(r).Some? && RichText.HasTargets(BodyField(r).value)
  }

  /** The date line: a paragraph linking the page, showing its formatted date. */
  function DateLine(r: Record, cfg: Config): (o: seq<Out>)
    ensures o != [] <==> PagePublishedOn(r).Some?
    ensures o != [] ==> IsPost(r)
  {
    var published := PagePublishedOn(r);
    if published.Some? then
      [Elem("p", map[], [Elem("a", Attr("href", PageHref(r, cfg.localAssets)), [Str(cfg.formatDate(published.value))])])]
    else []
  }

  /** The rule between heading and body, for the kinds with a body only. */
  function Rule(r: Record): (o: seq<Out>)
    ensures o != [] <==> Classify(r) in {Some(StaticPage), Some(Activity), Some(Post)}
    ensures o != [] ==> o == HR()
  {
    if IsStaticPage(r) || IsActivity(r) || IsPost(r) then HR() else []
  }

  /** An activity's logo, its source present only when the logo is resolved. */
  function ActivityLogo(r: Record, local: bool): seq<Out> {
    if IsActivity(r) then
      [Elem("img", Attr("src", if IsResolvedAsset(r.fields.logo) then PageSrc(r.fields.logo.value, local) else None), [])]
    else []
  }

  /** The rendered body: a static page's or post's content, an activity's description, and
      nothing for other kinds. */
  function ArticleBody(r: Record, local: bool): (o: seq<Out>)
    requires ArticleReady(r)
    ensures Classify(r) in {Some(StaticPage), Some(Post)} ==> o == RenderDocument(r.fields.content.value, local)
    ensures Classify(r) == Some(Activity) ==> o == RenderDocument(r.fields.description.value, local)
    ensures Classify(r) !in {Some(StaticPage), Some(Activity), Some(Post)} ==> o == []
  {
    if HasBody(r) then RenderDocument(BodyField(r).value, local) else []
  }

  /** `Article`: the title heading, then the date line, the rule, the activity logo and the
      body, each where the kind calls for it. */
  function Article(r: Record, cfg: Config): (a: Out)
    requires ArticleReady(r)
    ensures a.Elem? && a.tag == "article" && |a.children| >= 1
    ensures a.children[0] == Elem("h1", map[], Label(PageTitle(r)))
    ensures a.children
         == [Elem("h1", map[], Label(PageTitle(r)))] + DateLine(r, cfg) + Rule(r) + ActivityLogo(r, cfg.localAssets) + ArticleBody(r, cfg.localAssets)
  {
    Elem("article", map[],
      [Elem("h1", map[], Label(PageTitle(r)))] + DateLine(r, cfg) + Rule(r) + ActivityLogo(r, cfg.localAssets) + ArticleBody(r, cfg.localAssets))
  }

  /** The separator after each related post. */
  const Separator := Elem("hr", map["aria-hidden" := "true"], [])

  /** The articles of the posts, in order. */
  function Articles(posts: seq<Record>, cfg: Config): (o: seq<Out>)
    requires forall i | 0 <= i < |posts| :: ArticleReady(posts[i])
    ensures |o| == |posts|
    ensures forall i | 0 <= i < |posts| :: o[i] == Article(posts[i], cfg)
  {
    if posts == [] then [] else [Article(posts[0], cfg)] + Articles(posts[1..], cfg)
  }

  /** Each element followed by exactly one separator. */
  function Separated<T>(elements: seq<T>, separator: T): (o: seq<T>)
    ensures |o| == 2 * |elements|
    ensures forall i | 0 <= i < |elements| :: o[2 * i] == elements[i] && o[2 * i + 1] == separator
  {
    if elements == [] then [] else [elements[0], separator] + Separated(elements[1..], separator)
  }

  /** What `Page` reads without checking: the page's body, the dates of its related posts when
      there are several to sort, and the body of every related post. */
  predicate PageReady(items: seq<Record>, page: Record) {
    && ArticleReady(page)
    && SortReady(Candidates(items, page))
    && forall x | x in Candidates(items, page) :: ArticleReady(x)
  }

  /** The related posts' part of a page: each post's article followed by a separator. */
  function PostsSection(items: seq<Record>, page: Record, cfg: Config): (o: seq<Out>)
    requires PageReady(items, page)
    ensures |o| == 2 * |RelatedPosts(items, page)|
  {
    Separated(Articles(RelatedPosts(items, page), cfg), Separator)
  }

  /** `Page`: the document title (the page title upper-cased), the page's own article, then
      each related post's article followed by a separator. */
  function Page(items: seq<Record>, page: Record, cfg: Config): (o: seq<Out>)
    requires PageReady(items, page)
    ensures |o| == 2 + 2 * |RelatedPosts(items, page)|
    ensures o[0] == Elem("title", map[], if PageTitle(page).Some? then [Str(cfg.upperCase(PageTitle(page).value))] else [])
    ensures o[1] == Article(page, cfg)
  {
    var title := PageTitle(page);
    [Elem("title", map[], if title.Some? then [Str(cfg.upperCase(title.value))] else []), Article(page, cfg)]
      + PostsSection(items, page, cfg)
  }

  /** After the page's own article, the i-th related post's article and its separator. */
  lemma PagePost(items: seq<Record>, page: Record, cfg: Config, i: nat)
    requires PageReady(items, page)
    requires i < |RelatedPosts(items, page)|
    ensures var o, posts := Page(items, page, cfg), RelatedPosts(items, page);
      o[2 + 2 * i] == Article(posts[i], cfg) && o[3 + 2 * i] == Separator
  {
    var shown := PostsSection(items, page, cfg);
    assert Page(items, page, cfg)[2..] == shown;
  }

  // ---------------------------------------------------------------------------
  // Home page

  /** The test `isResolvedAsset(fields.smallIcon)`. */
  function ShowsSmallIcon(): Record -> bool {
    (r: Record) => IsResolvedAsset(r.fields.smallIcon)
  }

  /** One contact method on the home page: a link to it around its small icon and its slug. */
  function ContactLink(target: Record, local: bool): Out
    requires IsResolvedAsset(target.fields.smallIcon)
  {
    Elem("a", Attr("href", target.fields.link),
      [Elem("img", Attr("src", PageSrc(target.fields.smallIcon.value, local)), []),
       Elem("span", map[], Label(target.fields.slug))])
  }

  /** The home page's contact list: one link per contact method whose small icon is resolved,
      in order; the others render nothing. */
  function ContactLinks(targets: seq<Record>, local: bool): (o: seq<Out>)
    ensures var shown := Filter(targets, ShowsSmallIcon());
      && |o| == |shown|
      && forall i | 0 <= i < |o| :: IsResolvedAsset(shown[i].fields.smallIcon) && o[i] == ContactLink(shown[i], local)
  {
    if targets == [] then []
    else
      assert targets == [targets[0]] + targets[1..];
      FilterCons(targets[0], targets[1..], ShowsSmallIcon());
      (if IsResolvedAsset(targets[0].fields.smallIcon) then [ContactLink(targets[0], local)] else [])
        + ContactLinks(targets[1..], local)
  }

  /** A link node that carries its target. */
  predicate CarriesTarget(n: Node) {
    n.Element? && n.data.target.Some?
  }

  /** Every one of the link nodes carries its target. */
  predicate AllLinkTargets(nodes: seq<Node>) {
    forall i | 0 <= i < |nodes| :: CarriesTarget(nodes[i])
  }

  /** The targets of link nodes, in order. */
  function Targets(nodes: seq<Node>): (r: seq<Record>)
    requires AllLinkTargets(nodes)
    ensures |r| == |nodes|
    ensures forall i | 0 <= i < |nodes| :: r[i] == nodes[i].data.target.value
  {
    if nodes == [] then [] else [nodes[0].data.target.value] + Targets(nodes[1..])
  }

  /** The link blocks of the home page, one per link, in order. */
  function LinkBlocks(targets: seq<Record>, local: bool): (o: seq<Out>)
    ensures |o| == |targets|
    ensures forall i | 0 <= i < |targets| :: o[i] == LinkBlock(targets[i], local)[0]
  {
    if targets == [] then [] else LinkBlock(targets[0], local) + LinkBlocks(targets[1..], local)
  }

  const SiteName := "STOWARZYSZENIE UNICORNS"
  const Welcome := "witaj na stronie"

  /** The home page around its logo, index link targets and contact targets: the title, the
      welcome heading, the logo between two rules, one block per index link, a rule, and one
      link per contact method with a resolved small icon. */
  function HomeView(logo: Record, links: seq<Record>, contacts: seq<Record>, local: bool): (a: Out)
    ensures a.Elem? && a.tag == "article" && |a.children| == 8
    ensures a.children[0] == Elem("title", map[], [Str(SiteName)])
    ensures a.children[3] == Elem("img", Attr("src", PageSrc(logo, local))["alt" := "Unicorns"], [])
    ensures a.children[5].Elem? && |a.children[5].children| == |links|
    ensures forall i | 0 <= i < |links| :: a.children[5].children[i] == LinkBlock(links[i], local)[0]
    ensures a.children[1] == Elem("h1", map[], [Str(Welcome)])
    ensures a.children[2] == a.children[4] == a.children[6] == Elem("hr", map[], [])
    ensures a.children[7] == Elem("div", map[], ContactLinks(contacts, local))
    ensures |a.children[7].children| == Count(contacts, ShowsSmallIcon())
  {
    var rule := Elem("hr", map[], []);
    var linkBlocks := LinkBlocks(links, local);
    var contactLinks := ContactLinks(contacts, local);
    Elem("article", map[], [
      Elem("title", map[], [Str(SiteName)]),
      Elem("h1", map[], [Str(Welcome)]),
      rule,
      Elem("img", Attr("src", PageSrc(logo, local))["alt" := "Unicorns"], []),
      rule,
      Elem("div", map[], linkBlocks),
      rule,
      Elem("div", map[], contactLinks)])
  }

  /** Every contact target is a resolved entry whose fields can be read. */
  predicate AllResolved(targets: seq<Record>) {
    forall i | 0 <= i < |targets| :: HasFields(targets[i])
  }

  /** What the home page reads without checking: the home index and contact page with their
      content, a logo block with its target, and a target on every index and contact link,
      every contact target resolved. */
  predicate HomeReady(items: seq<Record>) {
    && GetHomeLogo(items).Success?
    && GetHomeLogo(items).value.Some?
    && CarriesTarget(GetHomeLogo(items).value.value)
    && WellKnownLinks(items, HomeSlug).Success?
    && AllLinkTargets(WellKnownLinks(items, HomeSlug).value)
    && WellKnownLinks(items, ContactSlug).Success?
    && AllLinkTargets(WellKnownLinks(items, ContactSlug).value)
    && AllResolved(Targets(WellKnownLinks(items, ContactSlug).value))
  }

  /** `HomePage`: it renders exactly when everything it reads is present, and then shows the
      logo, the index links and the contact methods; otherwise it fails where the source
      throws, first of all without a home index. */
  function HomePage(items: seq<Record>, cfg: Config): (r: Result<Out, Error>)
    ensures r.Success? <==> HomeReady(items)
    ensures FirstIndex(items, HasSlug(HomeSlug)).None? ==> r == Failure(MissingWellKnownEntity(HomeSlug))
    ensures r.Success? ==> r.value == HomeView(
      GetHomeLogo(items).value.value.data.target.value,
      Targets(WellKnownLinks(items, HomeSlug).value),
      Targets(WellKnownLinks(items, ContactSlug).value),
      cfg.localAssets)
  {
    var links :- WellKnownLinks(items, HomeSlug);
    var logo := GetHomeLogo(items).value;
    var contacts :- WellKnownLinks(items, ContactSlug);
    if logo.None? then Failure(MissingHomeLogo)
    else if !CarriesTarget(logo.value) || !AllLinkTargets(links) || !AllLinkTargets(contacts) then Failure(MissingTarget)
    else if !AllResolved(Targets(contacts)) then Failure(UnresolvedContact)
    else Success(HomeView(logo.value.data.target.value, Targets(links), Targets(contacts), cfg.localAssets))
  }
}
