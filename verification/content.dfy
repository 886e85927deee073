/** The content snapshot as delivered by the content store: records (entries, assets and
    unresolved link stubs) and the rich-text trees some of them carry. Records and nodes
    refer to each other, so they share one module. */
module Content {
  import opened Wrappers

  /** A calendar date (year, month, day), standing in for an ISO date string. */
  datatype Date = Date(year: int, month: int, day: int)

  /** The `sys` block of a record. `sysType` is "Entry", "Asset", or anything else for a link
      the store did not resolve; `contentTypeId` is only read when `sysType` is "Entry". */
  datatype Sys = Sys(sysType: string, id: string, contentTypeId: string)

  /** The `file` field of an asset. */
  datatype File = File(url: string, fileName: string, contentType: string)

  /** The fields the site reads, each possibly absent. Which of them a record carries depends
      on its content type: title/slug/content for static pages, title/slug for the all-news
      page, name/slug/logo/description for activities, name/slug for projects,
      slug/smallIcon/bigIcon/qrCode/link for contact methods, title/slug/publishedOn/project/
      activities/content for posts, title/file for assets. A link stub has no fields at all.
      The kind predicates and the derived values never read the fields of a stub, so their
      values do not matter there. The reserved-slug lookups (`Model.HasSlug`) do read the
      slug of every item of the collection; its items are entries, not stubs. */
  datatype Fields = Fields(
    title: Option<string>,
    name: Option<string>,
    slug: Option<string>,
    content: Option<Node>,
    description: Option<Node>,
    publishedOn: Option<Date>,
    project: Option<Record>,
    activities: Option<seq<Record>>,
    logo: Option<Record>,
    smallIcon: Option<Record>,
    bigIcon: Option<Record>,
    qrCode: Option<Record>,
    link: Option<string>,
    file: Option<File>)

  datatype Record = Record(sys: Sys, fields: Fields)

  /** The `data` of a rich-text node: the inlined link target of embedded and hyperlink
      nodes, and the URI of an external hyperlink. */
  datatype Data = Data(target: Option<Record>, uri: Option<string>)

  /** A rich-text node: a text leaf with its mark types, or any other node, identified by its
      `nodeType` tag, with its data and its ordered children. */
  datatype Node =
    | Text(value: string, marks: seq<string>)
    | Element(nodeType: string, data: Data, content: seq<Node>)
  {
    /** The `nodeType` of the node; text leaves carry the tag "text". */
    function Tag(): string {
      if Text? then "text" else nodeType
    }
  }

  /** The failures of a render pass, each at a point where the source would throw. */
  datatype Error =
    | MissingWellKnownEntity(slug: string)  // no item carries the reserved slug
    | MissingDocument(slug: string)         // the item found has no rich-text content to read
    | MissingHomeLogo                       // the home index holds no embedded asset
    | MissingTarget                         // a link node without `data.target`
    | UnresolvedContact                     // a contact link whose target is a stub without fields
    | MalformedPage                         // a page body, a post date or a link target is missing

  /** True when the record carries fields: entries and assets do, link stubs do not. */
  predicate HasFields(r: Record) {
    r.sys.sysType == "Entry" || r.sys.sysType == "Asset"
  }
}
