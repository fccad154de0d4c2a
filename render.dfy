/**
 * The block renderer: one block to one Markdown fragment, with the table,
 * table-row and numbered-list cases that need loops or a sibling listing.
 */
module Render {
  import opened Wrappers
  import opened Notion
  import Decimal

  // ---------------------------------------------------------------------
  // Table rows
  // ---------------------------------------------------------------------

  /** Each cell contributes the plain text of its first run, or nothing when it has none. */
  function FirstRuns(cells: seq<seq<string>>): seq<string> {
    seq(|cells|, i requires 0 <= i < |cells| => FirstRun(cells[i]))
  }

  /** `parts` with `sep` between neighbours, built from the last part backwards. */
  function Join(parts: seq<string>, sep: string): string {
    if |parts| == 0 then ""
    else if |parts| == 1 then parts[0]
    else Join(parts[..|parts| - 1], sep) + sep + parts[|parts| - 1]
  }

  /** The same joining, read from the first part forwards. */
  function JoinForward(parts: seq<string>, sep: string): string {
    if |parts| == 0 then ""
    else if |parts| == 1 then parts[0]
    else parts[0] + sep + JoinForward(parts[1..], sep)
  }

  /** Both readings of the joining agree. */
  lemma {:induction false} JoinReadings(parts: seq<string>, sep: string)
    ensures Join(parts, sep) == JoinForward(parts, sep)
    decreases |parts|
  {
    if |parts| > 2 {
      var n := |parts|;
      JoinReadings(parts[..n - 1], sep);
      JoinReadings(parts[1..], sep);
      JoinReadings(parts[1..][..n - 2], sep);
      assert parts[..n - 1][1..] == parts[1..][..n - 2];
      assert parts[..n - 1][..n - 2] == parts[..n - 2];
      assert parts[1..][..n - 2][..n - 3] == parts[1..n - 1][..n - 3];
    }
  }

  /** A table row: its cells' first runs between `"| "` and `" |\n"`, separated by `" | "`. */
  function RowText(cells: seq<seq<string>>): string {
    "| " + Join(FirstRuns(cells), " | ") + " |\n"
  }

  /** Renders a table row by writing its cells one by one into a buffer. */
  method RenderTableRow(cells: seq<seq<string>>) returns (s: string)
    ensures s == RowText(cells)
  {
    var n := |cells|;
    ghost var runs := FirstRuns(cells);
    s := "| ";
    for i := 0 to n
      invariant s == "| " + Join(runs[..i], " | ") + (if 0 < i < n then " | " else "")
    {
      assert runs[..i + 1][..i] == runs[..i];
      if |cells[i]| > 0 {
        s := s + cells[i][0];
      }
      if i != n - 1 {
        s := s + " | ";
      }
    }
    assert runs[..n] == runs;
    s := s + " |\n";
  }

  // ---------------------------------------------------------------------
  // Tables
  // ---------------------------------------------------------------------

  predicate AllRows(rows: seq<Block>) {
    forall i :: 0 <= i < |rows| ==> rows[i].kind.TableRow?
  }

  function Repeat(s: string, k: nat): string {
    if k == 0 then "" else Repeat(s, k - 1) + s
  }

  /** The header separator line: one `"| ---"` per column plus one more, then `"|\n"`. */
  function Separator(columns: nat): string {
    Repeat("| ---", columns + 1) + "|\n"
  }

  /** The rows rendered one after another, in listing order. */
  function RowsText(rows: seq<Block>): string
    requires AllRows(rows)
  {
    if |rows| == 0 then ""
    else RowsText(rows[..|rows| - 1]) + RowText(rows[|rows| - 1].kind.cells)
  }

  /** A table: its rows, with the separator after the first row when the table has a header row. */
  function TableText(rows: seq<Block>, header: bool): string
    requires AllRows(rows)
  {
    if |rows| == 0 then ""
    else
      RowText(rows[0].kind.cells)
      + (if header then Separator(|rows[0].kind.cells|) else "")
      + RowsText(rows[1..])
  }

  /** Renders a table from its listed rows, writing the separator right after row 0. */
  method RenderTable(rows: seq<Block>, header: bool) returns (s: string)
    requires AllRows(rows)
    ensures s == TableText(rows, header)
  {
    s := "";
    for i := 0 to |rows|
      invariant s == TableText(rows[..i], header)
    {
      var row := RenderTableRow(rows[i].kind.cells);
      s := s + row;
      if i == 0 && header {
        var width := |rows[i].kind.cells| + 1;
        ghost var before := s;
        for j := 0 to width
          invariant s == before + Repeat("| ---", j)
        {
          s := s + "| ---";
        }
        s := s + "|\n";
      }
      if i > 0 {
        assert rows[..i + 1][1..] == rows[1..i + 1];
        assert rows[1..i + 1][..i - 1] == rows[..i][1..];
      }
    }
    assert rows[..|rows|] == rows;
  }

  /** Rendering the rows splits at any point into the two parts rendered separately. */
  lemma {:induction false} RowsTextAppend(a: seq<Block>, b: seq<Block>)
    requires AllRows(a) && AllRows(b)
    ensures AllRows(a + b)
    ensures RowsText(a + b) == RowsText(a) + RowsText(b)
    decreases |b|
  {
    if |b| > 0 {
      var n := |b|;
      assert (a + b)[..|a + b| - 1] == a + b[..n - 1];
      RowsTextAppend(a, b[..n - 1]);
    } else {
      assert a + b == a;
    }
  }

  /** Without a header row, a table is exactly its rows in listing order. */
  lemma TableWithoutHeader(rows: seq<Block>)
    requires AllRows(rows)
    ensures TableText(rows, false) == RowsText(rows)
  {
    if |rows| > 0 {
      RowsTextAppend(rows[..1], rows[1..]);
      assert rows[..1] + rows[1..] == rows;
      assert rows[..1][..0] == [];
    }
  }

  /**
   * A header row changes the table only by inserting the separator right
   * after the first row; the separator has one more `"| ---"` than that row
   * has cells.
   */
  lemma TableWithHeader(rows: seq<Block>)
    requires AllRows(rows) && |rows| > 0
    ensures var k := |RowText(rows[0].kind.cells)|;
      var plain := TableText(rows, false);
      k <= |plain| &&
      TableText(rows, true) == plain[..k] + Separator(|rows[0].kind.cells|) + plain[k..]
  {
    var first := RowText(rows[0].kind.cells);
    var plain := TableText(rows, false);
    assert plain == first + RowsText(rows[1..]);
    assert plain[..|first|] == first;
    assert plain[|first|..] == RowsText(rows[1..]);
  }

  /** A three-column table with a header gets a separator of four `"| ---"` groups. */
  lemma ThreeColumnSeparator()
    ensures Separator(3) == "| ---| ---| ---| ---|\n"
  {
    assert Repeat("| ---", 2) == "| ---| ---";
    assert Repeat("| ---", 4) == "| ---| ---| ---| ---";
  }

  // ---------------------------------------------------------------------
  // Numbered-list ordinals
  // ---------------------------------------------------------------------

  /** The position of the first child with id `id`, or `|cs|` when there is none. */
  function FirstIndex(cs: seq<Block>, id: string): (k: nat)
    ensures k <= |cs|
    ensures forall j :: 0 <= j < k ==> cs[j].id != id
    ensures k < |cs| ==> cs[k].id == id
  {
    if |cs| == 0 then 0
    else if cs[0].id == id then 0
    else 1 + FirstIndex(cs[1..], id)
  }

  /** How many of `cs` are numbered-list items. */
  function CountNumbered(cs: seq<Block>): nat {
    if |cs| == 0 then 0
    else CountNumbered(cs[..|cs| - 1]) + (if cs[|cs| - 1].kind.NumberedListItem? then 1 else 0)
  }

  /**
   * The ordinal of the item `target` given its parent's children listing:
   * 1 when the listing failed; 1 + the numbered items before the target when
   * it is listed; the count of all numbered items when it is not.
   */
  function Ordinal(listing: Result<seq<Block>, string>, target: string): nat {
    match listing
    case Failure(_) => 1
    case Success(cs) =>
      var k := FirstIndex(cs, target);
      if k < |cs| then CountNumbered(cs[..k]) + 1 else CountNumbered(cs)
  }

  /** Finds the ordinal of a numbered-list item by scanning its parent's children. */
  method NumberedListNumber(g: Gateway, b: Block) returns (n: nat)
    ensures n == Ordinal(g.getChildren(b.parent), b.id)
  {
    var listing := g.getChildren(b.parent);
    if listing.Failure? {
      return 1;
    }
    var cs := listing.value;
    var i := 0;
    for k := 0 to |cs|
      invariant i == CountNumbered(cs[..k])
      invariant forall j :: 0 <= j < k ==> cs[j].id != b.id
    {
      assert cs[..k + 1][..k] == cs[..k];
      if cs[k].id == b.id {
        assert FirstIndex(cs, b.id) == k;
        return i + 1;
      }
      if cs[k].kind.NumberedListItem? {
        i := i + 1;
      }
    }
    assert cs[..|cs|] == cs;
    n := i;
  }

  lemma {:induction false} CountNumberedAppend(a: seq<Block>, b: seq<Block>)
    ensures CountNumbered(a + b) == CountNumbered(a) + CountNumbered(b)
    decreases |b|
  {
    if |b| > 0 {
      assert (a + b)[..|a + b| - 1] == a + b[..|b| - 1];
      CountNumberedAppend(a, b[..|b| - 1]);
    } else {
      assert a + b == a;
    }
  }

  lemma {:induction false} FirstIndexAppend(a: seq<Block>, b: seq<Block>, id: string)
    requires forall j :: 0 <= j < |a| ==> a[j].id != id
    ensures FirstIndex(a + b, id) == |a| + FirstIndex(b, id)
    decreases |a|
  {
    if |a| > 0 {
      assert (a + b)[1..] == a[1..] + b;
      FirstIndexAppend(a[1..], b, id);
    } else {
      assert a + b == b;
    }
  }

  /** A child listed at `k` with no earlier child of the same id is found at `k`. */
  lemma FirstIndexAt(cs: seq<Block>, k: nat, id: string)
    requires k < |cs| && cs[k].id == id
    requires forall j :: 0 <= j < k ==> cs[j].id != id
    ensures FirstIndex(cs, id) == k
  {
  }

  /** Appending a sibling that is not a numbered-list item leaves the count alone. */
  lemma CountNumberedSkip(a: seq<Block>, x: Block)
    requires !x.kind.NumberedListItem?
    ensures CountNumbered(a + [x]) == CountNumbered(a)
  {
    assert (a + [x])[..|a|] == a;
  }

  /**
   * Siblings that are not numbered-list items do not count: removing one
   * that stands before the target, or anywhere when the target is not
   * listed, leaves the ordinal unchanged.
   */
  lemma OrdinalIgnoresOtherKinds(a: seq<Block>, x: Block, c: seq<Block>, target: string)
    requires !x.kind.NumberedListItem? && x.id != target
    requires forall j :: 0 <= j < |a| ==> a[j].id != target
    ensures Ordinal(Success(a + [x] + c), target) == Ordinal(Success(a + c), target)
  {
    var ax := a + [x];
    FirstIndexAppend(ax, c, target);
    FirstIndexAppend(a, c, target);
    CountNumberedSkip(a, x);
    var k := FirstIndex(c, target);
    if k < |c| {
      assert (ax + c)[..|ax| + k] == ax + c[..k];
      assert (a + c)[..|a| + k] == a + c[..k];
      CountNumberedAppend(ax, c[..k]);
      CountNumberedAppend(a, c[..k]);
    } else {
      CountNumberedAppend(ax, c);
      CountNumberedAppend(a, c);
    }
  }

  /** Two numbered items listed one after the other get consecutive ordinals. */
  lemma OrdinalConsecutive(cs: seq<Block>, k: nat)
    requires k + 1 < |cs|
    requires cs[k].kind.NumberedListItem?
    requires FirstIndex(cs, cs[k].id) == k && FirstIndex(cs, cs[k + 1].id) == k + 1
    ensures Ordinal(Success(cs), cs[k + 1].id) == Ordinal(Success(cs), cs[k].id) + 1
  {
    assert cs[..k + 1][..k] == cs[..k];
  }

  /** An item listed under its parent gets an ordinal of at least 1. */
  lemma {:induction false} OrdinalOfListedItem(cs: seq<Block>, target: string)
    requires exists j :: 0 <= j < |cs| && cs[j].id == target
    ensures 1 <= Ordinal(Success(cs), target) <= CountNumbered(cs) + 1
  {
    var k := FirstIndex(cs, target);
    CountNumberedAppend(cs[..k], cs[k..]);
    assert cs[..k] + cs[k..] == cs;
  }

  /** Items A, B, C under one parent, with a paragraph between A and B, are numbered 1, 2, 3. */
  lemma OrdinalExample(a: Block, p: Block, b: Block, c: Block)
    requires a.kind.NumberedListItem? && b.kind.NumberedListItem? && c.kind.NumberedListItem?
    requires p.kind.Paragraph?
    requires a.id == "A" && p.id == "P" && b.id == "B" && c.id == "C"
    ensures var cs := Success([a, p, b, c]);
      Ordinal(cs, "A") == 1 && Ordinal(cs, "B") == 2 && Ordinal(cs, "C") == 3
  {
    var cs := [a, p, b, c];
    FirstIndexAt(cs, 0, "A");
    FirstIndexAt(cs, 2, "B");
    FirstIndexAt(cs, 3, "C");
    assert cs[..0] == [];
    assert CountNumbered([a]) == 1 by {
      assert [a][..0] == [];
    }
    assert CountNumbered(cs[..2]) == 1 by {
      assert cs[..2][..1] == [a];
    }
    assert CountNumbered(cs[..3]) == 2 by {
      assert cs[..3][..2] == cs[..2];
    }
  }

  // ---------------------------------------------------------------------
  // Blocks
  // ---------------------------------------------------------------------

  /** A table can be rendered only when its rows could be listed (otherwise the source crashes). */
  predicate TableListed(g: Gateway, id: string) {
    g.getChildren(id).Success? && AllRows(g.getChildren(id).value)
  }

  predicate Renderable(g: Gateway, b: Block) {
    b.kind.Table? ==> TableListed(g, b.id)
  }

  /** The warning sign U+26A0 with the emoji presentation selector U+FE0F. */
  const WarningSign: string := "\U{26A0}\U{FE0F}"

  const IframeTail: string := "\" width=\"300\" height=\"200\" frameborder=\"0\" allowfullscreen></iframe>"

  /** The Markdown fragment of one block. */
  function Fragment(g: Gateway, b: Block): string
    requires Renderable(g, b)
  {
    match b.kind
    case Heading1 => "# " + b.text + "\n"
    case Paragraph => b.text + "\n"
    case Heading2 => "## " + b.text + "\n"
    case Heading3 => "### " + b.text + "\n"
    case BulletedListItem => "- " + b.text + "\n"
    case NumberedListItem =>
      Decimal.DecimalString(Ordinal(g.getChildren(b.parent), b.id)) + ". " + b.text + "\n"
    case Toggle => "::: toggle\n" + b.text + "\n:::\n"
    case Quote => "> " + b.text + "\n"
    case Code => "```\n" + b.text + "\n```\n"
    case TableRow(cells) => RowText(cells)
    case Table(header) => TableText(g.getChildren(b.id).value, header)
    case Divider => "---\n"
    case Video(url) => "<iframe src=\"" + url + IframeTail
    case Embed(url) => "{" + url + "}"
    case Callout => WarningSign + " " + b.text + "\n"
    case ToDo(checked) => (if checked then "- [x] " else "- [ ] ") + b.text + "\n"
    case Image =>
      (match g.getImageUrl(b.id)
       case Success(url) => "![](" + url + ")\n"
       case Failure(message) => message)
    case Unsupported => ""
    case OtherKind(_) => ""
  }

  /** Renders one block, running the loops of the table, table-row and numbered-list cases. */
  method BlockToMarkdown(g: Gateway, b: Block) returns (s: string)
    requires Renderable(g, b)
    ensures s == Fragment(g, b)
  {
    match b.kind
    case NumberedListItem =>
      var num := NumberedListNumber(g, b);
      s := Decimal.DecimalString(num) + ". " + b.text + "\n";
    case TableRow(cells) =>
      s := RenderTableRow(cells);
    case Table(header) =>
      var rows := g.getChildren(b.id).value;
      s := RenderTable(rows, header);
    case _ =>
      s := Fragment(g, b);
  }

  /**
   * The fixed text around a block's rich text, for the kinds whose fragment
   * is their text between a prefix and a suffix.
   */
  function Template(g: Gateway, b: Block): Option<(string, string)> {
    match b.kind
    case Heading1 => Some(("# ", "\n"))
    case Heading2 => Some(("## ", "\n"))
    case Heading3 => Some(("### ", "\n"))
    case Paragraph => Some(("", "\n"))
    case BulletedListItem => Some(("- ", "\n"))
    case NumberedListItem =>
      Some((Decimal.DecimalString(Ordinal(g.getChildren(b.parent), b.id)) + ". ", "\n"))
    case Toggle => Some(("::: toggle\n", "\n:::\n"))
    case Quote => Some(("> ", "\n"))
    case Code => Some(("```\n", "\n```\n"))
    case Callout => Some((WarningSign + " ", "\n"))
    case ToDo(checked) => Some((if checked then "- [x] " else "- [ ] ", "\n"))
    case _ => None
  }

  /** The text between `prefix` and `suffix`, when `frag` has that shape. */
  function Unwrap(frag: string, prefix: string, suffix: string): Option<string> {
    if |prefix| + |suffix| <= |frag| && frag[..|prefix|] == prefix && frag[|frag| - |suffix|..] == suffix
    then Some(frag[|prefix|..|frag| - |suffix|])
    else None
  }

  /**
   * Every text-carrying kind renders as its template's prefix, the text and
   * its template's suffix, so the text can be read back from the fragment.
   */
  lemma TextRoundTrip(g: Gateway, b: Block)
    requires Template(g, b).Some?
    ensures Renderable(g, b)
    ensures var (prefix, suffix) := Template(g, b).value;
      Fragment(g, b) == prefix + b.text + suffix &&
      Unwrap(Fragment(g, b), prefix, suffix) == Some(b.text)
  {
    var (prefix, suffix) := Template(g, b).value;
    var f := prefix + b.text + suffix;
    assert Fragment(g, b) == f;
    assert f[..|prefix|] == prefix;
    assert f[|f| - |suffix|..] == suffix;
    assert f[|prefix|..|f| - |suffix|] == b.text;
  }

  /** Two blocks of the same text-carrying kind render alike only when their texts are equal. */
  lemma TextDeterminesFragment(g: Gateway, b1: Block, b2: Block)
    requires Template(g, b1).Some? && Template(g, b1) == Template(g, b2)
    requires Renderable(g, b1) && Renderable(g, b2)
    ensures Fragment(g, b1) == Fragment(g, b2) <==> b1.text == b2.text
  {
    TextRoundTrip(g, b1);
    TextRoundTrip(g, b2);
  }

  /** Kinds the renderer has no case for render to nothing. */
  lemma UnknownKindsRenderEmpty(g: Gateway, b: Block)
    requires b.kind.Unsupported? || b.kind.OtherKind?
    ensures Renderable(g, b) && Fragment(g, b) == ""
  {
  }

  /** An image whose address resolves renders as a Markdown image with empty alt text. */
  lemma ImageRendering(g: Gateway, b: Block)
    requires b.kind.Image?
    ensures Renderable(g, b)
    ensures g.getImageUrl(b.id).Success? ==> Fragment(g, b) == "![](" + g.getImageUrl(b.id).value + ")\n"
    ensures g.getImageUrl(b.id).Failure? ==> Fragment(g, b) == g.getImageUrl(b.id).error
  {
  }

  /**
   * Every kind that writes a line ends its fragment with a newline; only
   * video, embed and a failed image lookup leave the line open.
   */
  lemma LineKindsEndWithNewline(g: Gateway, b: Block)
    requires Template(g, b).Some? || b.kind.Divider? || b.kind.TableRow?
      || (b.kind.Image? && g.getImageUrl(b.id).Success?)
    ensures Renderable(g, b)
    ensures |Fragment(g, b)| > 0 && Fragment(g, b)[|Fragment(g, b)| - 1] == '\n'
  {
  }
}
