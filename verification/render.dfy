/** The recursive rich-text renderer (src/components/RichText.tsx): a depth-first walk that
    dispatches on each node's tag and produces markup. */
module Render {
  import opened Wrappers
  import opened Content
  import opened Model
  import RichText

  /** Rendered markup: an element with its attributes and children, or a text. A fragment is a
      sequence of `Out`; the empty fragment renders nothing. */
  datatype Out =
    | Elem(tag: string, attrs: map<string, string>, children: seq<Out>)
    | Str(text: string)

  /** An attribute whose value may be undefined; an undefined attribute is not rendered. */
  function Attr(name: string, value: Option<string>): map<string, string> {
    if value.Some? then map[name := value.value] else map[]
  }

  /** A text child whose value may be undefined; undefined renders nothing. */
  function Label(value: Option<string>): seq<Out> {
    if value.Some? then [Str(value.value)] else []
  }

  // ---------------------------------------------------------------------------
  // The rules for single node kinds

  /** A text leaf: `strong` when its marks include bold, `span` otherwise, holding the value
      unchanged (its line breaks are preserved). */
  function RenderText(value: string, marks: seq<string>): seq<Out> {
    [Elem(if "bold" in marks then "strong" else "span", map[], [Str(value)])]
  }

  /** The output level of a heading: one deeper than its input level, at most 6. */
  function Demoted(level: nat): nat {
    if level < 6 then level + 1 else 6
  }

  function HeadingElement(level: nat): string
    requires 1 <= level <= 6
  {
    ["h1", "h2", "h3", "h4", "h5", "h6"][level - 1]
  }

  /** Headings 1 to 6 (`H1` to `H6`). */
  function HeadingOut(level: nat, inner: seq<Out>): seq<Out>
    requires 1 <= level <= 6
  {
    [Elem(HeadingElement(Demoted(level)), map[], inner)]
  }

  function ParagraphOut(inner: seq<Out>): seq<Out> {
    [Elem("p", map[], inner)]
  }

  function QuoteOut(inner: seq<Out>): seq<Out> {
    [Elem("blockquote", map[], inner)]
  }

  function HR(): seq<Out> {
    [Elem("hr", map[], [])]
  }

  /** `assetLink?.sys.type === 'Asset'`: the link is present and resolved to an asset. */
  predicate IsResolvedAsset(link: Option<Record>) {
    link.Some? && link.value.sys.sysType == "Asset"
  }

  /** An image of a linked asset, present only when the link is resolved. */
  function Icon(link: Option<Record>, local: bool): seq<Out> {
    if IsResolvedAsset(link) then [Elem("img", Attr("src", PageSrc(link.value, local)), [])] else []
  }

  predicate IsImageAsset(r: Record) {
    IsAsset(r) && r.fields.file.Some? && StartsWith(r.fields.file.value.contentType, "image")
  }

  /** An embedded entry or asset block, rendered by the kind of its target: a contact method
      as a link opening in a new context around its big icon and QR code; an activity as a link
      around its logo; an image asset as an image; anything else as a link labelled with the
      target's title. Always exactly one element. */
  function LinkBlock(target: Record, local: bool): (r: seq<Out>)
    ensures |r| == 1 && r[0].Elem?
  {
    if IsContactMethod(target) then
      [Elem("a", Attr("href", target.fields.link)["target" := "_blank"],
            Icon(target.fields.bigIcon, local) + Icon(target.fields.qrCode, local))]
    else
      var title := PageTitle(target);
      if IsActivity(target) then
        var logo := target.fields.logo;
        var src := if IsResolvedAsset(logo) then PageSrc(logo.value, local) else None;
        [Elem("a", Attr("href", PageSrc(target, local)), [Elem("img", Attr("src", src) + Attr("alt", title), [])])]
      else if IsImageAsset(target) then
        [Elem("img", Attr("src", PageSrc(target, local)) + Attr("alt", title), [])]
      else
        [Elem("a", Attr("href", PageSrc(target, local)), Label(title))]
  }

  /** An inline embedded entry: a link to the target labelled with its title. */
  function LinkInline(target: Record, local: bool): seq<Out> {
    [Elem("a", Attr("href", PageSrc(target, local)), Label(PageTitle(target)))]
  }

  /** An entry or asset hyperlink: a link to the target around the node's own children. */
  function HyperlinkOut(target: Record, inner: seq<Out>, local: bool): seq<Out> {
    [Elem("a", Attr("href", PageSrc(target, local)), inner)]
  }

  /** An external hyperlink: a link to the node's URI around its children. */
  function ExternalHyperlink(uri: Option<string>, inner: seq<Out>): seq<Out> {
    [Elem("a", Attr("href", uri), inner)]
  }

  // ---------------------------------------------------------------------------
  // The walk

  /** `RichNode`: the rendering of one node, by the rule its tag selects; an unknown tag
      renders its children only. */
  function RichNode(n: Node, local: bool): seq<Out>
    requires RichText.HasTargets(n)
    decreases n
  {
    match n
    case Text(value, marks) => RenderText(value, marks)
    case Element(tag, data, content) =>
      match RichText.NodeKindOf(tag)
      case DocumentRoot => NodeContent(content, local)
      case Hr => HR()
      case Heading(level) => HeadingOut(level, NodeContent(content, local))
      case Paragraph => ParagraphOut(NodeContent(content, local))
      case Quote => QuoteOut(NodeContent(content, local))
      case EmbeddedEntryBlock => LinkBlock(data.target.value, local)
      case EmbeddedAssetBlock => LinkBlock(data.target.value, local)
      case EmbeddedEntryInline => LinkInline(data.target.value, local)
      case EntryHyperlink => HyperlinkOut(data.target.value, NodeContent(content, local), local)
      case AssetHyperlink => HyperlinkOut(data.target.value, NodeContent(content, local), local)
      case Hyperlink => ExternalHyperlink(data.uri, NodeContent(content, local))
      case Unknown => NodeContent(content, local)
  }

  /** `NodeContent`: the children rendered in order, with no wrapper. */
  function NodeContent(content: seq<Node>, local: bool): seq<Out>
    requires forall c | c in content :: RichText.HasTargets(c)
    decreases content
  {
    if content == [] then [] else RichNode(content[0], local) + NodeContent(content[1..], local)
  }

  /** `RichText`: the rendering of a document. */
  function RenderDocument(doc: Node, local: bool): seq<Out>
    requires RichText.HasTargets(doc)
  {
    RichNode(doc, local)
  }

  /** The diagnostic side of the walk: the tags of the unknown nodes the walk reaches, in the
      order it reaches them (one warning each). */
  function Warnings(n: Node): seq<string>
    decreases n
  {
    match n
    case Text(_, _) => []
    case Element(tag, _, content) =>
      var k := RichText.NodeKindOf(tag);
      (if k.Unknown? then [tag] else []) + (if k.RendersChildren() then ContentWarnings(content) else [])
  }

  function ContentWarnings(content: seq<Node>): seq<string>
    decreases content
  {
    if content == [] then [] else Warnings(content[0]) + ContentWarnings(content[1..])
  }

  /** The text of rendered markup, in document order. */
  function OutText(o: Out): string
    decreases o
  {
    match o
    case Str(s) => s
    case Elem(_, _, children) => FragmentText(children)
  }

  function FragmentText(os: seq<Out>): string
    decreases os
  {
    if os == [] then "" else OutText(os[0]) + FragmentText(os[1..])
  }

  // ---------------------------------------------------------------------------
  // Properties of the rules

  /** A text renders as `strong` exactly when it is bold and as `span` otherwise, and its value
      is kept unchanged. */
  lemma TextRendering(value: string, marks: seq<string>, local: bool)
    ensures var r := RichNode(Text(value, marks), local);
      && |r| == 1 && r[0].Elem?
      && (r[0].tag == "strong" <==> "bold" in marks)
      && (r[0].tag == "span" <==> "bold" !in marks)
      && r[0].children == [Str(value)]
      && FragmentText(r) == value
  {
    SingleFragmentText(Str(value));
    SingleFragmentText(RenderText(value, marks)[0]);
  }

  /** The text of a one-element fragment is that element's text. */
  lemma SingleFragmentText(o: Out)
    ensures FragmentText([o]) == OutText(o)
  {
    assert [o][1..] == [];
  }

  /** Heading n renders as h(n+1) for n from 1 to 5 and heading 6 as h6, around its rendered
      children: the page title keeps h1 to itself. */
  lemma HeadingDemotion(level: nat, data: Data, content: seq<Node>, local: bool)
    requires 1 <= level <= 6
    requires forall c | c in content :: RichText.HasTargets(c)
    ensures RichText.HasTargets(Element(RichText.HeadingTag(level), data, content))
    ensures RichNode(Element(RichText.HeadingTag(level), data, content), local)
         == [Elem(HeadingElement(if level < 6 then level + 1 else 6), map[], NodeContent(content, local))]
  {
    RichText.TagRoundTrip(RichText.Heading(level));
  }

  /** Demotion keeps levels 1 to 5 apart and merges only 5 and 6, never producing h1. */
  lemma DemotionLevels(a: nat, b: nat)
    requires 1 <= a <= 6 && 1 <= b <= 6
    ensures HeadingElement(Demoted(a)) != "h1"
    ensures HeadingElement(Demoted(a)) == HeadingElement(Demoted(b)) <==> a == b || (a >= 5 && b >= 5)
  {
  }

  /** A node of an unknown kind renders only its children, in order, and raises one warning
      naming its tag before those of its children. */
  lemma UnknownNodeRendersChildren(tag: string, data: Data, content: seq<Node>, local: bool)
    requires RichText.NodeKindOf(tag).Unknown?
    requires forall c | c in content :: RichText.HasTargets(c)
    ensures RichText.HasTargets(Element(tag, data, content))
    ensures RichNode(Element(tag, data, content), local) == NodeContent(content, local)
    ensures Warnings(Element(tag, data, content)) == [tag] + ContentWarnings(content)
  {
  }

  /** Siblings render independently and in order: the rendering of two runs of children is
      the rendering of the first followed by that of the second. */
  lemma {:induction false} NodeContentAppend(a: seq<Node>, b: seq<Node>, local: bool)
    requires forall c | c in a + b :: RichText.HasTargets(c)
    ensures NodeContent(a + b, local) == NodeContent(a, local) + NodeContent(b, local)
  {
    if a == [] {
      assert a + b == b;
    } else {
      assert (a + b)[0] == a[0] && (a + b)[1..] == a[1..] + b;
      NodeContentAppend(a[1..], b, local);
    }
  }

  /** The text of two fragments side by side is the text of the first then the second. */
  lemma {:induction false} FragmentTextAppend(a: seq<Out>, b: seq<Out>)
    ensures FragmentText(a + b) == FragmentText(a) + FragmentText(b)
  {
    if a == [] {
      assert a + b == b;
    } else {
      assert (a + b)[0] == a[0] && (a + b)[1..] == a[1..] + b;
      FragmentTextAppend(a[1..], b);
    }
  }

  /** The values of a run of text leaves, concatenated. */
  function Values(texts: seq<Node>): string
    requires forall t | t in texts :: t.Text?
  {
    if texts == [] then "" else texts[0].value + Values(texts[1..])
  }

  /** Rendering a run of text leaves keeps all their values, in order. */
  lemma {:induction false} TextChildrenKeepText(texts: seq<Node>, local: bool)
    requires forall t | t in texts :: t.Text?
    ensures forall t | t in texts :: RichText.HasTargets(t)
    ensures FragmentText(NodeContent(texts, local)) == Values(texts)
  {
    if texts != [] {
      var t := texts[0];
      TextChildrenKeepText(texts[1..], local);
      FragmentTextAppend(RichNode(t, local), NodeContent(texts[1..], local));
      TextRendering(t.value, t.marks, local);
    }
  }

  /** An unknown node holding two texts renders both texts, in order. */
  lemma UnknownNodeKeepsText(tag: string, data: Data, x: string, y: string, local: bool)
    requires RichText.NodeKindOf(tag).Unknown?
    ensures FragmentText(RichNode(Element(tag, data, [Text(x, []), Text(y, ["bold"])]), local)) == x + y
  {
    var texts := [Text(x, []), Text(y, ["bold"])];
    TextChildrenKeepText(texts, local);
    assert texts[1..] == [Text(y, ["bold"])] && texts[1..][1..] == [];
    assert Values(texts[1..]) == y + Values([]) == y;
    assert Values(texts) == x + y;
  }

  /** A block linking a contact method renders one link to its `link`, opening in a new
      browsing context, around the big icon and then the QR code, each only when resolved. */
  lemma ContactMethodBlock(target: Record, local: bool)
    requires IsContactMethod(target)
    ensures var r := LinkBlock(target, local);
      && r[0].tag == "a"
      && r[0].attrs == Attr("href", target.fields.link)["target" := "_blank"]
      && r[0].children
         == (if IsResolvedAsset(target.fields.bigIcon) then [Elem("img", Attr("src", PageSrc(target.fields.bigIcon.value, local)), [])] else [])
          + (if IsResolvedAsset(target.fields.qrCode) then [Elem("img", Attr("src", PageSrc(target.fields.qrCode.value, local)), [])] else [])
  {
  }

  /** A block linking an activity renders a link to the activity around one image: its alt
      text is the activity's name, its source the logo's, only when the logo is resolved. */
  lemma ActivityBlock(target: Record, local: bool)
    requires IsActivity(target)
    ensures LinkBlock(target, local)
         == [Elem("a", Attr("href", PageSrc(target, local)),
                  [Elem("img", Attr("src", if IsResolvedAsset(target.fields.logo) then PageSrc(target.fields.logo.value, local) else None)
                             + Attr("alt", target.fields.name), [])])]
  {
  }

  /** A block linking an image asset renders the image, with the asset's title as alt text. */
  lemma ImageAssetBlock(target: Record, local: bool)
    requires IsImageAsset(target)
    ensures LinkBlock(target, local) == [Elem("img", Attr("src", PageSrc(target, local)) + Attr("alt", target.fields.title), [])]
  {
  }

  /** Any other target (a static page, a project, a post, a non-image asset, an unresolved
      link) renders a link to the target labelled with its title. */
  lemma FallbackBlock(target: Record, local: bool)
    requires !IsContactMethod(target) && !IsActivity(target) && !IsImageAsset(target)
    ensures LinkBlock(target, local) == [Elem("a", Attr("href", PageSrc(target, local)), Label(PageTitle(target)))]
  {
  }

  /** An unresolved target renders, as a block or inline, a bare link with no address and no
      text, and does not fail. */
  lemma UnresolvedTargetLink(target: Record, local: bool)
    requires !HasFields(target)
    ensures LinkBlock(target, local) == [Elem("a", map[], [])]
    ensures LinkInline(target, local) == [Elem("a", map[], [])]
  {
    UnresolvedDerivesNothing(target, local);
  }

  /** An inline embedded entry renders a link to its target labelled with the target's title,
      whatever children it holds. */
  lemma InlineEntryShowsTitle(data: Data, content: seq<Node>, local: bool)
    requires data.target.Some?
    ensures RichText.HasTargets(Element(RichText.EmbeddedEntryInlineTag, data, content))
    ensures RichNode(Element(RichText.EmbeddedEntryInlineTag, data, content), local)
      == [Elem("a", Attr("href", PageSrc(data.target.value, local)), Label(PageTitle(data.target.value)))]
    ensures Warnings(Element(RichText.EmbeddedEntryInlineTag, data, content)) == []
  {
  }

  /** A rule renders as a bare `hr` and raises no warning, whatever children it holds: they are
      neither rendered nor required to carry their targets. */
  lemma RuleIgnoresChildren(data: Data, content: seq<Node>, local: bool)
    ensures RichText.HasTargets(Element(RichText.HrTag, data, content))
    ensures RichNode(Element(RichText.HrTag, data, content), local) == [Elem("hr", map[], [])]
    ensures Warnings(Element(RichText.HrTag, data, content)) == []
  {
  }

  /** A document holding a rule around an embedded entry block without a target renders as
      one bare `hr`. */
  lemma RuleAroundBrokenBlockExample(local: bool)
    ensures var block := Element(RichText.EmbeddedEntryBlockTag, Data(None, None), []);
      var doc := Element(RichText.DocumentTag, Data(None, None), [Element(RichText.HrTag, Data(None, None), [block])]);
      && !RichText.HasTargets(block)
      && RichText.HasTargets(doc)
      && RenderDocument(doc, local) == [Elem("hr", map[], [])]
  {
    var block := Element(RichText.EmbeddedEntryBlockTag, Data(None, None), []);
    var rule := Element(RichText.HrTag, Data(None, None), [block]);
    assert RichText.NodeKindOf(RichText.EmbeddedEntryBlockTag) == RichText.EmbeddedEntryBlock;
    assert RichText.NodeKindOf(RichText.HrTag) == RichText.Hr;
    assert RichText.NodeKindOf(RichText.DocumentTag) == RichText.DocumentRoot;
    RuleIgnoresChildren(Data(None, None), [block], local);
    assert [rule][1..] == [];
    assert NodeContent([rule], local) == RichNode(rule, local);
  }

  /** Entry and asset hyperlinks wrap the node's own children, not the target's title, in a
      link to the target; an external hyperlink links its URI instead. */
  lemma HyperlinksWrapOwnChildren(data: Data, content: seq<Node>, local: bool)
    requires data.target.Some?
    requires forall c | c in content :: RichText.HasTargets(c)
    ensures RichNode(Element(RichText.EntryHyperlinkTag, data, content), local)
         == [Elem("a", Attr("href", PageSrc(data.target.value, local)), NodeContent(content, local))]
    ensures RichNode(Element(RichText.AssetHyperlinkTag, data, content), local)
         == [Elem("a", Attr("href", PageSrc(data.target.value, local)), NodeContent(content, local))]
    ensures RichNode(Element(RichText.HyperlinkTag, data, content), local)
         == [Elem("a", Attr("href", data.uri), NodeContent(content, local))]
  {
  }

  /** Every top-level block renders as exactly one element. */
  lemma TopLevelBlockRendersOne(c: Node, local: bool)
    requires RichText.IsTopLevelBlock(c) && RichText.HasTargets(c)
    ensures |RichNode(c, local)| == 1
  {
  }

  /** A run of top-level blocks renders as one element per block, in order. */
  lemma {:induction false} BlocksRenderOneEach(blocks: seq<Node>, local: bool)
    requires forall c | c in blocks :: RichText.IsTopLevelBlock(c) && RichText.HasTargets(c)
    ensures |NodeContent(blocks, local)| == |blocks|
    ensures forall i | 0 <= i < |blocks| :: |RichNode(blocks[i], local)| == 1 && NodeContent(blocks, local)[i] == RichNode(blocks[i], local)[0]
  {
    if blocks != [] {
      TopLevelBlockRendersOne(blocks[0], local);
      BlocksRenderOneEach(blocks[1..], local);
    }
  }

  /** The walk over a well-formed tree raises no warning. */
  lemma {:induction false} WellFormedHasNoWarnings(n: Node)
    requires RichText.WellFormedNode(n)
    ensures Warnings(n) == []
    decreases n
  {
    if n.Element? {
      WellFormedContentHasNoWarnings(n.content);
    }
  }

  lemma {:induction false} WellFormedContentHasNoWarnings(content: seq<Node>)
    requires forall c | c in content :: RichText.WellFormedNode(c)
    ensures ContentWarnings(content) == []
    decreases content
  {
    if content != [] {
      WellFormedHasNoWarnings(content[0]);
      WellFormedContentHasNoWarnings(content[1..]);
    }
  }

  /** A well-formed document renders, without any warning, as one element per top-level block,
      each the rendering of that block, in document order. */
  lemma WellFormedDocumentRendering(doc: Node, local: bool)
    requires RichText.WellFormedDocument(doc)
    ensures RichText.HasTargets(doc)
    ensures |RenderDocument(doc, local)| == |doc.content|
    ensures forall i | 0 <= i < |doc.content| ::
      |RichNode(doc.content[i], local)| == 1 && RenderDocument(doc, local)[i] == RichNode(doc.content[i], local)[0]
    ensures Warnings(doc) == []
  {
    RichText.WellFormedDocumentHasTargets(doc);
    BlocksRenderOneEach(doc.content, local);
    WellFormedContentHasNoWarnings(doc.content);
  }

  /** A document holding one paragraph holding one bold "hi" renders as that paragraph around
      a strong "hi". */
  lemma BoldParagraphExample(local: bool)
    ensures var doc := Element(RichText.DocumentTag, Data(None, None),
                               [Element(RichText.ParagraphTag, Data(None, None), [Text("hi", ["bold"])])]);
      && RichText.HasTargets(doc)
      && RenderDocument(doc, local) == [Elem("p", map[], [Elem("strong", map[], [Str("hi")])])]
  {
    var hi := Text("hi", ["bold"]);
    var para := Element(RichText.ParagraphTag, Data(None, None), [hi]);
    assert RichText.NodeKindOf(RichText.ParagraphTag) == RichText.Paragraph;
    assert RichText.NodeKindOf(RichText.DocumentTag) == RichText.DocumentRoot;
    assert [hi][1..] == [] && [para][1..] == [];
    assert NodeContent([hi], local) == RichNode(hi, local) == [Elem("strong", map[], [Str("hi")])];
    assert NodeContent([para], local) == RichNode(para, local);
  }
}
