/**
 * The data the renderer works on: Notion blocks, search results, page
 * records, and the remote service seen as a pure lookup.
 */
module Notion {
  import opened Wrappers

  /** A block kind together with the payload that kind carries. */
  datatype Kind =
    | Heading1
    | Heading2
    | Heading3
    | Paragraph
    | BulletedListItem
    | NumberedListItem
    | Toggle
    | Quote
    | Code
    /** Each cell is the plain text of its rich-text runs, in order. */
    | TableRow(cells: seq<seq<string>>)
    | Table(hasRowHeader: bool)
    | Divider
    | Video(videoUrl: string)
    | Embed(embedUrl: string)
    | Callout
    | ToDo(checked: bool)
    | Image
    | Unsupported
    /** Any kind the renderer has no case for. */
    | OtherKind(name: string)

  /**
   * A block as the service returns it. `text` is the plain text of all of
   * its rich-text runs; `parent` is the block id of its parent, which is
   * empty when the parent is a page rather than a block.
   */
  datatype Block = Block(id: string, kind: Kind, text: string, hasChildren: bool, parent: string)

  /** The plain text of the first of `runs`, or nothing when there is none. */
  function FirstRun(runs: seq<string>): string {
    if |runs| > 0 then runs[0] else ""
  }

  /** A page property: only title properties matter to the search filter. */
  datatype Property = TitleProperty(runs: seq<string>) | OtherProperty

  /** One entry of a search response, by object type. */
  datatype SearchObject =
    | PageObject(id: string, properties: map<string, Property>)
    | BlockObject(id: string)
    | DatabaseObject(id: string)
    | UnknownObject

  /** A page reference: what the search produces and the assembler consumes. */
  datatype PageInfo = PageInfo(id: string, title: string)

  /** A rendered page. */
  datatype Page = Page(id: string, title: string, content: string)

  /**
   * The remote service as a deterministic lookup. Every call either
   * succeeds or fails with the client's error text. A children listing is
   * the single response to a request with an empty pagination cursor.
   * `search` is the title search restricted to page objects (the request
   * always carries the filter object = "page"); its results may still hold
   * other object types.
   */
  datatype Gateway = Gateway(
    getBlock: string -> Result<Block, string>,
    getChildren: string -> Result<seq<Block>, string>,
    getImageUrl: string -> Result<string, string>,
    search: string -> Result<seq<SearchObject>, string>)
}
