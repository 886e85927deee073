# Unicorns site generator — a Dafny model of its content model and renderer

The site of the Unicorns association is generated from a snapshot of a headless content
store. The snapshot is a list of records:

- entries of six content types: static page, all-news page, activity, project, contact method and post;
- assets (files);
- stubs for links the store could not resolve.

Some records carry rich-text documents. Those are trees of typed nodes whose link nodes hold
their target record inline.

This project models the pure core of the generator:

- `Content` (`content.dfy`): the records, their fields, and rich-text nodes.
- `Model` (`model.dfy`, for `src/lib/model.ts`):
  - classification of a record into one kind;
  - the derived title, path, media source and publication date;
  - the lookups of the four reserved pages ("indeks", "nasze-aktywnosci", "nasze-projekty", "kontakt-2") and of the links they hold.
  - `WellKnownLinks(items, slug)` is the common body of `getIndexLinks`, `getActivityLinks`, `getProjectLinks` and `getContactMethods` (`HomeSlug`, `ActivitiesSlug`, `ProjectsSlug`, `ContactSlug`).
- `RichText` (`rich_text.dfy`, for `src/lib/rich-text.ts`):
  - the node tags and their classification;
  - the structural constraints the site's node declarations impose, as predicates.
- `Render` (`render.dfy`, for `src/components/RichText.tsx`): the depth-first renderer.
  - Markup is the `Out` datatype. A fragment is a `seq<Out>`; the empty fragment renders nothing.
  - The `console.warn` of unknown nodes is the separate `Warnings` function.
- `Pages` (`pages.dfy`, for `src/components/Page.tsx`):
  - the related-posts selection and its stable newest-first sort;
  - the structure of an article by kind;
  - the page, and the home page.
- `App` (`app.dfy`, for `src/components/App.tsx`): the path index and the dispatch of a request path.
- `Seqs` (`seqs.dfy`): order-preserving selection (`filter`), proved to be the unique order-preserving selection.
- `Wrappers` (`wrappers.dfy`): `Option` and `Result`.

How the source's behaviour is represented:

- **JavaScript crashes become `Result` failures.** Where the source would throw on a missing value, the model returns `Failure` with an `Error` that names the cause.
  - Examples: no item with a reserved slug, a link node without a target, or destructuring the fields of an unresolved contact.
  - The recursive renderer instead requires `HasTargets`: every link node the walk reaches carries its target. The children of a rule, an embedded block or an inline entry are never reached, so they are not constrained.
- **`undefined` values.**
  - An undefined attribute or text child is not rendered.
  - An undefined value inside a template literal is spelled `"undefined"` (`Interpolate`).
- **Local assets.** The local-assets flag is read from the environment in the source. Here it is the parameter `local` (`cfg.localAssets`).

## Model

| member | source | states |
|---|---|---|
| Seqs.Filter | src/lib/model.ts:140-162 | `filter` keeps exactly the elements satisfying the test, in order: a subsequence, with the right count, a sub-multiset, and empty iff no element passes |
| Seqs.FilterUnique | src/lib/model.ts:140-162 | an order-preserving selection of passing elements with the full count is the filter: the characterisation determines the result |
| Seqs.FirstIndex | src/lib/model.ts:134-138 | the first index whose element passes the test, or none when no element does |
| Seqs.FilterHead | src/lib/model.ts:134-138 | `filter(p)[0]` is the first passing element, and the filter is empty iff there is none |
| RichText.WellFormedNode | src/lib/rich-text.ts:6-57 | no contract; the `Node` declarations as a predicate, used by `NodeClasses`, `WellFormedHasTargets` and `Render.WellFormedHasNoWarnings` |
| RichText.WellFormedDocument | src/lib/rich-text.ts:59-61 | no contract; the `Document` declaration as a predicate, used by `WellFormedDocumentHasTargets` and `Render.WellFormedDocumentRendering` |
| RichText.HasTargets | src/components/RichText.tsx:52-94 | no contract; every link node the walk reaches carries a target, which the link rules read unchecked; specified by `WellFormedHasTargets`, `Render.RuleIgnoresChildren` and `Render.RuleAroundBrokenBlockExample` |
| RichText.NodeKindOf | src/components/RichText.tsx:5-28 | every tag the dispatch recognises is the tag of the kind it yields; other tags are Unknown |
| RichText.TagRoundTrip | src/components/RichText.tsx:8-25 | each known kind is recognised from its own tag: the dispatch rules have distinct tags and none is shadowed |
| RichText.NodeClasses | src/lib/rich-text.ts:51-57 | a well-formed node is exactly one of a text, a top-level block or an inline |
| RichText.WellFormedHasTargets | src/lib/rich-text.ts:6-49 | in a well-formed tree, every link node the renderer reaches carries its target |
| RichText.WellFormedDocumentHasTargets | src/lib/rich-text.ts:59-61 | a well-formed document (only top-level blocks below the root) carries all its targets |
| Model.Classify | src/lib/model.ts:4-89 | the seven kind predicates are mutually exclusive: a record satisfies the predicate of exactly the kind returned, and a link stub has none |
| Model.PageTitle | src/lib/model.ts:93-103 | name for activities and projects; title for static pages, the all-news page, assets and posts; undefined for contact methods and stubs |
| Model.PageHref | src/lib/model.ts:107-117 | `/{slug}/` for activities, static pages, posts; `/category/{slug}/` for projects and the all-news page; `/assets/{id}/{fileName}` or the file URL for assets; undefined otherwise |
| Model.PageSrc | src/lib/model.ts:119-125 | the media source differs from the path exactly when the path starts with `/assets/`, and then it is `/generated` followed by the path |
| Model.PagePublishedOn | src/lib/model.ts:127-132 | defined only for posts, and then equal to their `publishedOn` |
| Model.UnresolvedDerivesNothing | src/lib/model.ts:93-132 | an unresolved link has no kind, title, path, source or date |
| Model.LocalAssetSrc | src/lib/model.ts:107-125 | with local assets, an asset's source is `/generated/assets/{id}/{fileName}` |
| Model.SlugPathIsAssetPath | src/lib/model.ts:107-125 | a `/{slug}/` path starts with `/assets/` exactly when the slug is "assets" or starts with "assets/" |
| Model.EntrySrcIsHref | src/lib/model.ts:107-125 | a `/category/{slug}/` page's source is its path; a `/{slug}/` page's source is its path exactly when its slug is neither "assets" nor starts with "assets/" |
| Model.AssetsSlugIsRewritten | src/lib/model.ts:107-125 | an activity with slug "assets" has path `/assets/`, which the source rule rewrites to `/generated/assets/` |
| Model.HrefDeterminesSlug | src/lib/model.ts:107-117 | within the `/{slug}/` kinds, and within the `/category/{slug}/` kinds, equal paths mean equal slugs |
| Model.ActivityAndStaticPageCollide | src/lib/model.ts:107-117 | an activity and a static page with the same slug get the same path |
| Model.TopLevelContent | src/lib/model.ts:140-162 | the top-level children of the first item with the slug; failure exactly when no item has it, or that item has no document |
| Model.WellKnownLinks | src/lib/model.ts:140-162 | exactly the embedded-entry blocks of that content, in document order; fails exactly when the content cannot be read |
| Model.SelectsTagIsFilter | src/lib/model.ts:140-162 | the characterisation of the link lists determines them: it is the filter by tag |
| Model.GetHomeLogo | src/lib/model.ts:134-138 | the first embedded-asset block of the home index's content; none when there is none; fails when the index or its content is missing |
| Render.RichNode | src/components/RichText.tsx:5-28 | no contract; specified per kind by `TextRendering`, `HeadingDemotion`, `RuleIgnoresChildren`, `UnknownNodeRendersChildren`, `InlineEntryShowsTitle`, `HyperlinksWrapOwnChildren`, `TopLevelBlockRendersOne` and `WellFormedDocumentRendering` |
| Render.RenderDocument | src/components/RichText.tsx:137-139 | no contract; a document renders as its root node; specified by `WellFormedDocumentRendering`, `BoldParagraphExample` and `RuleAroundBrokenBlockExample` |
| Render.Warnings | src/components/RichText.tsx:30-33 | no contract; the unknown-node warnings, specified by `UnknownNodeRendersChildren` and `WellFormedHasNoWarnings` |
| Render.NodeContent | src/components/RichText.tsx:35-38 | no contract; specified by `NodeContentAppend`, `TextChildrenKeepText` and `BlocksRenderOneEach` |
| Render.RenderText | src/components/RichText.tsx:40-46 | no contract; specified by `TextRendering` |
| Render.IsResolvedAsset | src/components/RichText.tsx:48-50 | no contract; the link is present and resolved to an asset, used by `ContactMethodBlock`, `ActivityBlock` and `Pages.ContactLinks` |
| Render.LinkInline | src/components/RichText.tsx:83-88 | no contract; specified by `InlineEntryShowsTitle` and `UnresolvedTargetLink` |
| Render.HyperlinkOut | src/components/RichText.tsx:90-94 | no contract; specified by `HyperlinksWrapOwnChildren` |
| Render.ExternalHyperlink | src/components/RichText.tsx:96-99 | no contract; specified by `HyperlinksWrapOwnChildren` |
| Render.HeadingOut | src/components/RichText.tsx:101-123 | no contract; specified by `HeadingDemotion` and `DemotionLevels` |
| Render.ParagraphOut | src/components/RichText.tsx:125-127 | no contract; a `p` around the rendered children, used by `BoldParagraphExample` and `TopLevelBlockRendersOne` |
| Render.QuoteOut | src/components/RichText.tsx:129-131 | no contract; a `blockquote` around the rendered children, used by `TopLevelBlockRendersOne` |
| Render.HR | src/components/RichText.tsx:133-135 | no contract; specified by `RuleIgnoresChildren` and used by `Pages.Rule` |
| Render.LinkBlock | src/components/RichText.tsx:52-81 | a link block always renders exactly one element |
| Render.TextRendering | src/components/RichText.tsx:40-46 | a text renders as `strong` iff its marks include bold, else `span`, with the value unchanged |
| Render.HeadingDemotion | src/components/RichText.tsx:101-123 | heading n renders as h(n+1) for n from 1 to 5, and heading 6 as h6, around its rendered children |
| Render.DemotionLevels | src/components/RichText.tsx:101-123 | demotion never yields h1 and merges only levels 5 and 6 |
| Render.UnknownNodeRendersChildren | src/components/RichText.tsx:25-33 | an unknown node renders only its children, and warns once with its tag before its children's warnings |
| Render.NodeContentAppend | src/components/RichText.tsx:35-38 | children render independently and in order, with no wrapper |
| Render.TextChildrenKeepText | src/components/RichText.tsx:35-46 | rendering a run of texts keeps all their values in order |
| Render.UnknownNodeKeepsText | src/components/RichText.tsx:30-46 | an unknown node holding a plain and a bold text shows both texts, in order |
| Render.ContactMethodBlock | src/components/RichText.tsx:55-65 | a contact-method block is one link to `link` with `target="_blank"`, around the big icon then the QR code, each only when resolved |
| Render.ActivityBlock | src/components/RichText.tsx:67-74 | an activity block is a link to the activity's source around one image: alt is the name, src the logo's source only when the logo is resolved |
| Render.ImageAssetBlock | src/components/RichText.tsx:76-78 | an image asset block is an image with the asset's title as alt |
| Render.FallbackBlock | src/components/RichText.tsx:67-80 | any other target is a link labelled with its title |
| Render.UnresolvedTargetLink | src/components/RichText.tsx:52-88 | an unresolved target renders as a bare link with no href and no text, and does not fail |
| Render.InlineEntryShowsTitle | src/components/RichText.tsx:83-88 | an inline entry renders a link to the target labelled with the target's title, whatever its children, and raises no warning |
| Render.RuleIgnoresChildren | src/components/RichText.tsx:133-135 | a rule renders as a bare `hr` whatever its children, which need not carry their targets, and raises no warning |
| Render.RuleAroundBrokenBlockExample | src/components/RichText.tsx:133-139 | a document holding a rule around an embedded block without a target renders as one `hr` |
| Render.HyperlinksWrapOwnChildren | src/components/RichText.tsx:90-99 | entry and asset hyperlinks wrap the node's own children in a link to the target; external hyperlinks use the URI |
| Render.TopLevelBlockRendersOne | src/components/RichText.tsx:5-28 | every top-level block renders as exactly one element |
| Render.BlocksRenderOneEach | src/components/RichText.tsx:35-38 | a run of top-level blocks renders one element per block, in order |
| Render.WellFormedHasNoWarnings | src/components/RichText.tsx:30-33 | a well-formed tree raises no unknown-node warning |
| Render.WellFormedContentHasNoWarnings | src/components/RichText.tsx:35-38 | well-formed children raise no warning |
| Render.WellFormedDocumentRendering | src/components/RichText.tsx:137-139 | a well-formed document renders one element per top-level block, in order, without warnings |
| Render.BoldParagraphExample | src/components/RichText.tsx:137-139 | a document with one paragraph holding a bold "hi" renders as a paragraph around a strong "hi" |
| Pages.CompareDates | src/components/Page.tsx:54 | the date comparison returns -1, 0 or 1, and 0 exactly for equal dates |
| Pages.CompareDatesOrder | src/components/Page.tsx:54 | the comparison is antisymmetric and transitive |
| Pages.Insert | src/components/Page.tsx:54 | insertion adds exactly the one post (multiset) |
| Pages.SortNewestFirst | src/components/Page.tsx:54 | the sort is a permutation of its input |
| Pages.InsertNewestFirst | src/components/Page.tsx:54 | insertion keeps a list newest first |
| Pages.SortIsNewestFirst | src/components/Page.tsx:54 | the sorted list is newest first |
| Pages.InsertStable | src/components/Page.tsx:54 | insertion keeps the post ahead of later posts of its own date |
| Pages.SortIsStable | src/components/Page.tsx:54 | for every date, the posts of that date keep their original order |
| Pages.RelatedTo | src/components/Page.tsx:49-53 | no contract; the selection test, specified by `RelatedPostsMembers`, `ProjectPosts`, `ActivityPosts` and `OtherPagePosts` |
| Pages.RelatedPosts | src/components/Page.tsx:49-54 | the posts below a page are a permutation of the selected posts |
| Pages.RelatedPostsMembers | src/components/Page.tsx:49-53 | a post is shown iff it is in the collection and related to the page |
| Pages.RelatedPostsOrder | src/components/Page.tsx:54 | the posts below a page are newest first, and same-date posts keep collection order |
| Pages.ProjectPosts | src/components/Page.tsx:50 | below a project: the posts whose project id is the page id |
| Pages.ActivityPosts | src/components/Page.tsx:51 | below an activity: the posts listing an activity with the page id |
| Pages.OtherPagePosts | src/components/Page.tsx:52-53 | below "aktualnosci": every post; below any other page: none |
| Pages.ProjectPageExample | src/components/Page.tsx:49-54 | a project with one post in it and one outside shows only the first |
| Pages.SortExample | src/components/Page.tsx:54 | dates 2024-01-01, 2025-06-01, 2024-01-01 sort as second, first, third |
| Pages.DateLine | src/components/Page.tsx:14-23 | a date line is shown iff the publication date is defined, hence only for posts |
| Pages.Rule | src/components/Page.tsx:25-28 | the rule appears exactly for static pages, activities and posts |
| Pages.ActivityLogo | src/components/Page.tsx:29-32 | no contract; an activity's `img` with its logo's source only when the logo is resolved, nothing for other kinds; part of `Article` |
| Pages.ArticleBody | src/components/Page.tsx:33-38 | the body is the content for static pages and posts, the description for activities, and nothing otherwise |
| Pages.Article | src/components/Page.tsx:7-40 | an article is its title heading, then the date line, the rule, the activity logo and the body, in that order, each present exactly where its own row says |
| Pages.Articles | src/components/Page.tsx:59 | one article per post, in order |
| Pages.Separated | src/components/Page.tsx:59 | each element is followed by exactly one separator: n elements give 2n |
| Pages.PostsSection | src/components/Page.tsx:49-59 | the posts part of a page has two elements per related post |
| Pages.Page | src/components/Page.tsx:43-61 | the title (upper-cased), the page's article, then 2n elements for n related posts |
| Pages.PagePost | src/components/Page.tsx:58-59 | after the page's article, element 2+2i is the i-th post's article and 3+2i a separator |
| Pages.ContactLink | src/components/Page.tsx:82-88 | no contract; a link to the contact's `link` around its small icon and its slug; specified through `ContactLinks` |
| Pages.ContactLinks | src/components/Page.tsx:80-90 | one link per contact method with a resolved small icon, in order; the others render nothing |
| Pages.Targets | src/components/Page.tsx:74-82 | the targets of the link nodes, in order |
| Pages.LinkBlocks | src/components/Page.tsx:76-78 | one link block per index link, in order |
| Pages.HomeView | src/components/Page.tsx:70-92 | the home article: title, welcome heading, the logo between two rules, one block per index link, a rule, and the `ContactLinks` of the contacts (one link per contact method with a resolved small icon, in order) |
| Pages.HomePage | src/components/Page.tsx:63-92 | renders exactly when everything it reads is present (`HomeReady`), fails first on a missing home index, and shows the home view of the logo, links and contacts |
| App.PathIndex | src/components/App.tsx:10-12 | no contract; the path map filled in collection order, specified by `PathIndexLookup`, `PathIndexKeys` and `LaterRecordWins` |
| App.LastListedAt | src/components/App.tsx:10-13 | the last record listed under a path, or none when no record is |
| App.PathIndexLookup | src/components/App.tsx:10-13 | the index holds exactly the listed paths, and each leads to the last record listed under it |
| App.PathIndexKeys | src/components/App.tsx:10-12 | a path is a key iff some record has it as a defined, non-empty path |
| App.LaterRecordWins | src/components/App.tsx:10-12 | of two records sharing a path, the earlier one is shadowed by the later one or a still later one |
| App.Main | src/components/App.tsx:6-18 | `/` renders the home page whatever the index holds; a listed path renders the page of its last record; any other path renders an empty main |

## Left out

- `src/generate.tsx` and `src/index.tsx` are not part of this model. They fetch from the content store, write files and bootstrap the browser: all I/O.
- `static/unicorns.ts` is not part of this model: browser event handling.
- `src/components/Site.tsx` is not part of this model: header and footer chrome.
- `App` (the component around `Main`, with the header and footer and `location.pathname`) is not modelled; `Main` is.
- Styles, class names, React keys and the `color` of contact methods are not modelled. The separator keeps only its `aria-hidden` attribute.
- `console.warn` is modelled as the `Render.Warnings` function beside the rendering, not as a side effect.
- Dates are (year, month, day) triples compared lexicographically. Date parsing is not modelled.
- Polish-locale upper-casing of the title and long date formatting are opaque function parameters (`Pages.Config`).
- A rich-text node's children are a sequence. An absent `content` array is the empty sequence.
  - For rendering this matches the source, which maps over `content` only when it is present.
  - `Model.TopLevelContent`: the lookups of the reserved pages filter their document's `content` without a check, so the source throws on a document without it. Here that document has no top-level blocks: the lookup succeeds with an empty list.
- Text leaves are the `Text` variant. An element node whose tag is "text" goes to the unknown-node rule here, while the source would send it to the text rule.
- Marks are kept as their type names only.
- `Pages.Article`: it requires `ArticleReady`, the body with its link targets.
  - In the source, a missing body throws, and so does a missing target on a link node the renderer reaches. Link nodes under a rule, an embedded block or an inline entry are never reached, and their targets are not required.
  - `App.Main` reports this as `Failure(MalformedPage)` through `Pages.PageReady`.
- `Pages.SortNewestFirst`: it requires `SortReady`.
  - Every post must be dated once there are two or more; the comparator is never called with fewer.
  - An undated post among several throws in the source, and `App.Main` reports it as `Failure(MalformedPage)`.
- `Pages.HomePage`: errors are reported by kind, not by the position where the source would throw first.
  - Missing targets are checked before unresolved contacts, across all links.
- `Model.GetHomeLogo`: a missing logo is `None`. The source's non-null assertion does no check, so the failure appears where the home page reads the logo (`Error.MissingHomeLogo`).
