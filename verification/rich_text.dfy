/** The rich-text node types: the `nodeType` tags of the rich-text format, their closed
    classification, and the structural constraints the site's node type declarations impose
    (src/lib/rich-text.ts). */
module RichText {
  import opened Content

  /** The node kinds the renderer distinguishes; every other tag is `Unknown`. */
  datatype NodeKind =
    | DocumentRoot
    | Heading(level: nat)
    | Paragraph
    | Quote
    | Hr
    | EmbeddedEntryBlock
    | EmbeddedAssetBlock
    | EmbeddedEntryInline
    | EntryHyperlink
    | AssetHyperlink
    | Hyperlink
    | Unknown
  {
    /** A kind that has a tag: not `Unknown`, and headings only of levels 1 to 6. */
    predicate Known() {
      !Unknown? && (Heading? ==> 1 <= level <= 6)
    }

    /** Kinds allowed as direct children of a document. */
    predicate TopLevel() {
      (Heading? && 1 <= level <= 6) || Paragraph? || Quote? || Hr? || EmbeddedEntryBlock? || EmbeddedAssetBlock?
    }

    /** Inline kinds. */
    predicate Inline() {
      EmbeddedEntryInline? || EntryHyperlink? || AssetHyperlink? || Hyperlink?
    }

    /** Kinds whose `data.target` holds a linked record. */
    predicate LinksTarget() {
      EmbeddedEntryBlock? || EmbeddedAssetBlock? || EmbeddedEntryInline? || EntryHyperlink? || AssetHyperlink?
    }

    /** Kinds whose rendering rule walks the node's children: all but the rule, the embedded
        blocks and the inline entry, which ignore them. */
    predicate RendersChildren() {
      !(Hr? || EmbeddedEntryBlock? || EmbeddedAssetBlock? || EmbeddedEntryInline?)
    }
  }

  const DocumentTag := "document"
  const ParagraphTag := "paragraph"
  const QuoteTag := "blockquote"
  const HrTag := "hr"
  const EmbeddedEntryBlockTag := "embedded-entry-block"
  const EmbeddedAssetBlockTag := "embedded-asset-block"
  const EmbeddedEntryInlineTag := "embedded-entry-inline"
  const EntryHyperlinkTag := "entry-hyperlink"
  const AssetHyperlinkTag := "asset-hyperlink"
  const HyperlinkTag := "hyperlink"

  function HeadingTag(level: nat): string
    requires 1 <= level <= 6
  {
    ["heading-1", "heading-2", "heading-3", "heading-4", "heading-5", "heading-6"][level - 1]
  }

  /** The `nodeType` tag of a known kind. */
  function TagOf(k: NodeKind): string
    requires k.Known()
  {
    match k
    case DocumentRoot => DocumentTag
    case Heading(level) => HeadingTag(level)
    case Paragraph => ParagraphTag
    case Quote => QuoteTag
    case Hr => HrTag
    case EmbeddedEntryBlock => EmbeddedEntryBlockTag
    case EmbeddedAssetBlock => EmbeddedAssetBlockTag
    case EmbeddedEntryInline => EmbeddedEntryInlineTag
    case EntryHyperlink => EntryHyperlinkTag
    case AssetHyperlink => AssetHyperlinkTag
    case Hyperlink => HyperlinkTag
  }

  /** The renderer's dispatch on a node's tag, tested in the renderer's order; a tag it does
      not list is `Unknown`. Every recognised tag is the tag of the kind it yields. */
  function NodeKindOf(tag: string): (k: NodeKind)
    ensures k != Unknown ==> k.Known() && TagOf(k) == tag
  {
    if tag == DocumentTag then DocumentRoot
    else if tag == HrTag then Hr
    else if tag == HeadingTag(1) then Heading(1)
    else if tag == HeadingTag(2) then Heading(2)
    else if tag == HeadingTag(3) then Heading(3)
    else if tag == HeadingTag(4) then Heading(4)
    else if tag == HeadingTag(5) then Heading(5)
    else if tag == HeadingTag(6) then Heading(6)
    else if tag == ParagraphTag then Paragraph
    else if tag == QuoteTag then Quote
    else if tag == EmbeddedEntryBlockTag then EmbeddedEntryBlock
    else if tag == EmbeddedAssetBlockTag then EmbeddedAssetBlock
    else if tag == EmbeddedEntryInlineTag then EmbeddedEntryInline
    else if tag == EntryHyperlinkTag then EntryHyperlink
    else if tag == AssetHyperlinkTag then AssetHyperlink
    else if tag == HyperlinkTag then Hyperlink
    else Unknown
  }

  /** Each known kind is recognised from its own tag: no two rules of the dispatch share a tag,
      and none is shadowed by an earlier one. */
  lemma TagRoundTrip(k: NodeKind)
    requires k.Known()
    ensures NodeKindOf(TagOf(k)) == k
  {
  }

  /** The kind of an element node; a text leaf is not an element kind. */
  function KindOfNode(n: Node): NodeKind {
    if n.Text? then Unknown else NodeKindOf(n.nodeType)
  }

  /** `TopLevelBlock`: headings 1 to 6, paragraph, quote, hr, embedded entry and asset blocks. */
  predicate IsTopLevelBlock(n: Node) {
    n.Element? && NodeKindOf(n.nodeType).TopLevel()
  }

  /** `Inline`: embedded entry inline, entry, asset and external hyperlinks. */
  predicate IsInline(n: Node) {
    n.Element? && NodeKindOf(n.nodeType).Inline()
  }

  /** The constraints on one node: embedded blocks and inline entries link a target and have
      no children; entry and asset hyperlinks link a target and hold only text; an external
      hyperlink carries a URI. */
  predicate LocalShape(n: Node) {
    match n
    case Text(_, _) => true
    case Element(tag, data, content) =>
      var k := NodeKindOf(tag);
      && (k.EmbeddedEntryBlock? || k.EmbeddedAssetBlock? || k.EmbeddedEntryInline? ==> data.target.Some? && content == [])
      && (k.EntryHyperlink? || k.AssetHyperlink? ==> data.target.Some? && forall c | c in content :: c.Text?)
      && (k.Hyperlink? ==> data.uri.Some?)
  }

  /** `Node`: a top-level block, an inline or a text, shaped as declared, all the way down. */
  predicate WellFormedNode(n: Node) {
    && (n.Text? || IsTopLevelBlock(n) || IsInline(n))
    && LocalShape(n)
    && (n.Element? ==> forall c | c in n.content :: WellFormedNode(c))
  }

  /** `Document`: a document root whose direct children are well-formed top-level blocks. */
  predicate WellFormedDocument(d: Node) {
    && d.Element?
    && d.nodeType == DocumentTag
    && forall c | c in d.content :: IsTopLevelBlock(c) && WellFormedNode(c)
  }

  /** Every node the renderer reaches that links a target carries one: what the renderer reads
      without checking. The children of a node whose rule ignores them are never reached. */
  predicate HasTargets(n: Node) {
    match n
    case Text(_, _) => true
    case Element(tag, data, content) =>
      var k := NodeKindOf(tag);
      && (k.LinksTarget() ==> data.target.Some?)
      && (k.RendersChildren() ==> forall c | c in content :: HasTargets(c))
  }

  /** A well-formed node is one of exactly three things: a text, a top-level block or an inline. */
  lemma NodeClasses(n: Node)
    requires WellFormedNode(n)
    ensures n.Text? ==> !IsTopLevelBlock(n) && !IsInline(n)
    ensures IsTopLevelBlock(n) <==> !n.Text? && !IsInline(n)
  {
  }

  /** Well-formed trees carry every target the renderer reads. */
  lemma {:induction false} WellFormedHasTargets(n: Node)
    requires WellFormedNode(n)
    ensures HasTargets(n)
  {
    if n.Element? {
      forall c | c in n.content
        ensures HasTargets(c)
      {
        WellFormedHasTargets(c);
      }
    }
  }

  lemma {:induction false} WellFormedDocumentHasTargets(d: Node)
    requires WellFormedDocument(d)
    ensures HasTargets(d)
  {
    forall c | c in d.content
      ensures HasTargets(c)
    {
      WellFormedHasTargets(c);
    }
  }
}
