# Notion page renderer, modelled in Dafny

This project models the part of PandaWiki's Notion importer that turns a
Notion page into Markdown (`backend/utils/notion_client.go`). The importer has
five parts:

- **Block renderer** (`BlockToMarkdown`): maps one block to a Markdown
  fragment, using one fixed template per block kind.
  - Table rows and tables are built in loops.
  - A numbered-list item's ordinal comes from a scan over its parent's
    children.
  - An image's address comes from a separate lookup.
- **Tree walker** (`getBlock`): renders a block and its whole subtree. It
  has an asymmetric error policy:
  - failing to fetch the block itself is an error;
  - failing to list its children is an error;
  - a child subtree that fails contributes nothing, and its siblings are
    kept.
- **Page assembler** (`GetPagesContent`, `getPageContent`): walks each
  requested page. The batch is all or nothing.
- **Search filter** (`GetList`): resolves a title for each search result and
  drops results without one.

The Notion service is a `Gateway` value made of four pure lookups:
- block by id;
- children of a block id;
- image address of a block id;
- search by title substring, always filtered to page objects.

Each lookup either succeeds or fails with the client's error text. So the
error messages the code builds with `fmt.Errorf` are modelled exactly.

Each loop of the source is a method proved equal to a pure specification
function. The source's promises are lemmas about those functions:
- every text-carrying kind's fragment gives back its text;
- tables are their rows in order, with the header separator inserted after
  row 0;
- ordinals count only numbered siblings;
- a walk's output is exactly the fragments of its leaf blocks, in depth-first
  listing order;
- the page batch is all or nothing;
- the search filter keeps order and only titled page results.

Files:
- `wrappers.dfy`: `Option` and `Result`.
- `notion.dfy`: blocks, kinds and their payloads, search objects, page
  records, and the gateway.
- `decimal.dfy`: Go's `%d` for the ordinal.
- `render.dfy`: the block renderer.
- `walker.dfy`: the tree walker.
- `pages.dfy`: the page assembler.
- `search.dfy`: the search filter.

Termination of the walk is given by a depth bound: `Walker.Walkable(g, id,
depth)` says the subtree under `id` is less than `depth` levels deep. A
finite tree has such a bound. `Walker.WalkDepthIrrelevant` shows that the
bound does not change the result.

Where the code differs from what a reader might expect, the model follows
the code:
- children are listed once, with an empty pagination cursor; no cursor is
  followed;
- a block with children emits none of its own text;
- a database result is dropped (the code never gives it a title), and
  nothing is de-duplicated;
- an item missing from its parent's listing gets the count of numbered
  siblings, which may be 0, not that count plus 1;
- the sibling listing is requested for the parent's block id. That id is
  empty when the item sits directly on a page. Whatever the gateway answers
  for that id decides the ordinal, and a failed listing gives 1.

A consequence the model makes visible: the walker renders a table only when
the table has no children. A table with rows is walked row by row, so the
header separator appears only when a childless table's own listing returns
rows.

## Model

| member | source | states |
|---|---|---|
| `Render.BlockToMarkdown` | backend/utils/notion_client.go:171-253 | renders a block exactly as the per-kind specification `Fragment` says, running the table, row and ordinal loops; a table needs its rows listed |
| `Render.TextRoundTrip` | backend/utils/notion_client.go:173-243 | each text-carrying kind (headings 1–3, paragraph, bullet, numbered, toggle, quote, code, callout, to-do) renders as its fixed prefix, the text and its fixed suffix, and the text is recovered from the fragment |
| `Render.TextDeterminesFragment` | backend/utils/notion_client.go:173-243 | two blocks with the same template render alike if and only if their texts are equal |
| `Render.UnknownKindsRenderEmpty` | backend/utils/notion_client.go:250-251 | unsupported and unlisted kinds render to the empty string |
| `Render.ImageRendering` | backend/utils/notion_client.go:244-249 | a resolved image renders as `![](url)` and a newline; a failed lookup renders as the error text alone, and rendering still returns normally |
| `Render.LineKindsEndWithNewline` | backend/utils/notion_client.go:173-249 | text kinds, divider, table row and resolved image end their fragment with a newline |
| `Render.RenderTableRow` | backend/utils/notion_client.go:193-208 | a row is `"| "`, then each cell's first run (or `""` for an empty cell) joined by `" | "`, then `" |\n"` |
| `Render.JoinReadings` | backend/utils/notion_client.go:199-206 | joining cells from the back agrees with joining them from the front |
| `Render.RenderTable` | backend/utils/notion_client.go:210-227 | the table is its rows in listing order, with the separator written right after row 0 when the table has a header row |
| `Render.RowsTextAppend` | backend/utils/notion_client.go:215-226 | rendering a run of rows splits into rendering its two parts |
| `Render.TableWithoutHeader` | backend/utils/notion_client.go:215-226 | without a header row, a table is exactly its rows concatenated in order |
| `Render.TableWithHeader` | backend/utils/notion_client.go:218-225 | a header row only inserts `"| ---"` × (cells of row 0 + 1) and `"|\n"` after the first row |
| `Render.ThreeColumnSeparator` | backend/utils/notion_client.go:219-224 | three columns give the separator `"| ---| ---| ---| ---|\n"` |
| `Render.FirstIndex` | backend/utils/notion_client.go:287-291 | the scan stops at the first child carrying the target id; no child before it has that id |
| `Render.NumberedListNumber` | backend/utils/notion_client.go:279-297 | the ordinal is 1 if the parent's listing fails; otherwise 1 + the numbered siblings before the target, or the count of all numbered siblings when the target is absent |
| `Render.CountNumberedAppend` | backend/utils/notion_client.go:292-294 | the count of numbered siblings adds up over concatenation |
| `Render.OrdinalIgnoresOtherKinds` | backend/utils/notion_client.go:286-296 | removing a non-numbered sibling that stands before the target, or anywhere when the target is not listed, leaves the ordinal unchanged |
| `Render.OrdinalConsecutive` | backend/utils/notion_client.go:286-296 | two adjacent numbered items get consecutive ordinals |
| `Render.OrdinalOfListedItem` | backend/utils/notion_client.go:286-291 | a listed item's ordinal is between 1 and the numbered count + 1 |
| `Render.OrdinalExample` | backend/utils/notion_client.go:279-297 | numbered A, paragraph, numbered B, numbered C are numbered 1, 2, 3 |
| `Decimal.DecimalString` | backend/utils/notion_client.go:185 | the ordinal is printed as non-empty decimal digits with no leading zero |
| `Decimal.DecimalRoundTrip` | backend/utils/notion_client.go:185 | reading the printed ordinal back gives the ordinal |
| `Walker.GetBlock` | backend/utils/notion_client.go:121-156 | the walk computes the specification `Walk`. A failed fetch gives `"get block <id> error: …"`. An unsupported block gives empty output. A childless block gives its fragment. A failed listing gives `"get block's children <id> error: …"`. Otherwise the output is the children's contributions in listing order |
| `Walker.WalkAllAppend` | backend/utils/notion_client.go:144-154 | the walk of a run of siblings is the walks of its two parts concatenated, so sibling order is output order |
| `Walker.WalkFailsOnlyAtItsOwnFetches` | backend/utils/notion_client.go:123-152 | a walk fails if and only if the block's own fetch fails, or it is a supported block with children whose listing fails; a failed fetch gives the id-tagged error |
| `Walker.FailedChildContributesNothing` | backend/utils/notion_client.go:148-152 | a failing child drops out and its siblings' output stays intact and in order |
| `Walker.Leaves` | backend/utils/notion_client.go:129-155 | only supported childless blocks are leaves, and each can be rendered |
| `Walker.WalkIsLeafFragments` | backend/utils/notion_client.go:121-156 | what a walk contributes is exactly its leaves' fragments in depth-first listing order; a parent adds nothing of its own |
| `Walker.WalkAllIsLeafFragments` | backend/utils/notion_client.go:144-154 | the same, for a run of siblings |
| `Walker.FragmentsAppend` | backend/utils/notion_client.go:152 | concatenating fragments splits over concatenated block runs |
| `Walker.WalkDepthIrrelevant` | backend/utils/notion_client.go:121-156 | any larger depth bound admits the walk and gives the same result |
| `Walker.WalkAllDepthIrrelevant` | backend/utils/notion_client.go:144-154 | the same, for a run of siblings |
| `Pages.GetPageContent` | backend/utils/notion_client.go:109-120 | a page copies the request's id and title and takes the walk of its id as content; a failed walk gives `"get Page <id> error: …"` |
| `Pages.FirstFailingPage` | backend/utils/notion_client.go:99-104 | finds the first requested page whose walk fails; all pages before it succeed |
| `Pages.GetPagesContent` | backend/utils/notion_client.go:97-107 | the loop computes the specification `PagesContent`: every page in order, or only the first failure's error tagged `"get Pages <id> error: …"` |
| `Pages.PagesAllOrNothing` | backend/utils/notion_client.go:97-120 | the batch succeeds if and only if every page does. Then it has one record per request, in order, with the request's id and title and that id's walk as content. Otherwise its error is the first failing page's |
| `Search.GetList` | backend/utils/notion_client.go:53-95 | a failed search returns its error; otherwise the result is the resolved results that have a non-empty title, in result order |
| `Search.ListedAppend` | backend/utils/notion_client.go:64-93 | filtering commutes with concatenation, so the result order is kept |
| `Search.ListedMembership` | backend/utils/notion_client.go:64-93 | an entry is listed if and only if it resolves from a page result with a non-empty title; blocks and databases never appear |
| `Search.NoDeduplication` | backend/utils/notion_client.go:87-92 | a titled page returned twice is listed twice |
| `Search.TitlePropertyTakesPrecedence` | backend/utils/notion_client.go:71-80 | an empty `"title"` title property gives the empty title; `"Name"` is not consulted |
| `Search.SearchExample` | backend/utils/notion_client.go:64-93 | a titled page, a block and a database give only the page |

## Left out

- The HTTP request, headers and JSON decoding that resolve an image address
  (`getImageURL`, lines 254-276). The lookup is the gateway's `getImageUrl`
  result.
- The `notionapi` client calls, authentication, `context`, logging and
  `NewNotionClient`. They are the gateway's lookups or have no effect on
  output.
- `GetPages` (lines 158-169): a fetch loop with no logic of its own.
- Pagination cursors: the code never follows them, so each listing is a
  single list.
- The video and embed type assertions (lines 232 and 235) would fail at run
  time on the service's real block types. Video and embed are modelled as
  kinds that carry their URL.
- A table whose children listing fails makes the source dereference a nil
  response (line 211). `Render.BlockToMarkdown` requires the listing to
  succeed and to hold only table rows, as the service returns for tables.
  This is recorded in `Render.TableListed` and in the walker's `Walkable`. The
  rows are rendered by the row renderer directly, not through a nested
  dispatch.
- `Walker.GetBlock` requires a depth bound on the subtree (`Walkable`). A
  block tree that loops back on itself, which the source would walk forever,
  is not modelled.
- The walker's output is `[]byte` in the source and a string here. The page
  content is that string unchanged.
- Rich text is reduced to its plain text. A block's text is the
  concatenation of its runs; a table cell and a title property keep their
  runs separately.
