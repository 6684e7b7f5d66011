/** The writer that turns the five rows read back from the description sheet
    into the HTML table stored as an item's description. Its output is
    described twice: as the text the loop builds, and as the sequence of
    tags and texts that text consists of, so that its shape (one table, one
    row element per input row, the cells of each row) can be counted on the
    tags. */
module HtmlSerialiser {
  import opened Wrappers
  import opened HtmlTable
  import Text

  /** A `<td>` of the written table: an optional colspan and the cell text. */
  datatype HtmlCell = HtmlCell(colspan: Option<string>, text: string)

  /** The `IndexError` raised when a row is too short for its layout. */
  datatype ConvertError = RowTooShort(index: nat)

  const TableAttrs: seq<(string, string)> := [("border", "1"), ("cellpadding", "5"), ("cellspacing", "0")]
  const TableOpen: string := "<table border='1' cellpadding='5' cellspacing='0'>\n"
  const TableClose: string := "</table>"

  /** Data rows keep at most this many leading cells. */
  const DataColumns: nat := 81

  function Texts(cells: seq<HtmlCell>): (texts: seq<string>)
    ensures |texts| == |cells| && forall i :: 0 <= i < |cells| ==> texts[i] == cells[i].text
  {
    seq(|cells|, i requires 0 <= i < |cells| => cells[i].text)
  }

  function Spans(cells: seq<HtmlCell>): (spans: seq<Option<string>>)
    ensures |spans| == |cells| && forall i :: 0 <= i < |cells| ==> spans[i] == cells[i].colspan
  {
    seq(|cells|, i requires 0 <= i < |cells| => cells[i].colspan)
  }

  /** The cells written for the row at `index`: the header row 0 and the
      item-name row 1 have fixed merged layouts, every later row gives its
      first 81 cells. `None` is the `IndexError` of a row too short. */
  function RowLayout(index: nat, row: seq<string>): (r: Option<seq<HtmlCell>>)
    ensures r.None? <==> (index == 0 && |row| < 3) || (index == 1 && |row| < 77)
    ensures r.Some? && index == 0 ==>
      Texts(r.value) == row[..3] && Spans(r.value) == [None, None, Some("84")]
    ensures r.Some? && index == 1 ==>
      Texts(r.value) == [row[0], row[1], row[2], row[66], row[76]]
      && Spans(r.value) == [None, None, Some("64"), Some("10"), Some("5")]
    ensures r.Some? && index >= 2 ==>
      Texts(r.value) == row[..Min(DataColumns, |row|)]
      && forall j :: 0 <= j < |r.value| ==> r.value[j].colspan.None?
  {
    if index == 0 then
      if |row| < 3 then None
      else Some([HtmlCell(None, row[0]), HtmlCell(None, row[1]), HtmlCell(Some("84"), row[2])])
    else if index == 1 then
      if |row| < 77 then None
      else Some([HtmlCell(None, row[0]), HtmlCell(None, row[1]), HtmlCell(Some("64"), row[2]),
                 HtmlCell(Some("10"), row[66]), HtmlCell(Some("5"), row[76])])
    else
      Some(seq(Min(DataColumns, |row|), j requires 0 <= j < Min(DataColumns, |row|) => HtmlCell(None, row[j])))
  }

  /** The layouts of all rows, or the error of the first row too short. */
  function Layouts(data: seq<seq<string>>): Result<seq<seq<HtmlCell>>, ConvertError>
    decreases |data|
  {
    if data == [] then Ok([])
    else
      match Layouts(data[..|data| - 1])
      case Err(e) => Err(e)
      case Ok(ls) =>
        match RowLayout(|data| - 1, data[|data| - 1])
        case None => Err(RowTooShort(|data| - 1))
        case Some(cells) => Ok(ls + [cells])
  }

  // ---------------------------------------------------------------------------
  // The written text as tags and texts

  function CellEvents(c: HtmlCell): seq<Event> {
    [StartTag("td", if c.colspan.Some? then [("colspan", c.colspan.value)] else []),
     Data(c.text), EndTag("td"), Data("\n")]
  }

  function CellsEvents(cells: seq<HtmlCell>): seq<Event>
    decreases |cells|
  {
    if cells == [] then [] else CellsEvents(cells[..|cells| - 1]) + CellEvents(cells[|cells| - 1])
  }

  function RowEvents(cells: seq<HtmlCell>): seq<Event> {
    [StartTag("tr", []), Data("\n")] + CellsEvents(cells) + [EndTag("tr"), Data("\n")]
  }

  function RowsEvents(layouts: seq<seq<HtmlCell>>): seq<Event>
    decreases |layouts|
  {
    if layouts == [] then [] else RowsEvents(layouts[..|layouts| - 1]) + RowEvents(layouts[|layouts| - 1])
  }

  const OpenEvents: seq<Event> := [StartTag("table", TableAttrs), Data("\n")]

  function TableEvents(layouts: seq<seq<HtmlCell>>): seq<Event> {
    OpenEvents + RowsEvents(layouts) + [EndTag("table")]
  }

  /** ` name='value'` for each attribute, in order. */
  function AttrsText(attrs: seq<(string, string)>): string
    decreases |attrs|
  {
    if attrs == [] then "" else " " + attrs[0].0 + "='" + attrs[0].1 + "'" + AttrsText(attrs[1..])
  }

  function EventText(e: Event): string {
    match e
    case StartTag(tag, attrs) => "<" + tag + AttrsText(attrs) + ">"
    case EndTag(tag) => "</" + tag + ">"
    case Data(text) => text
  }

  /** The text a sequence of tags and texts is written as. */
  function Render(events: seq<Event>): string
    decreases |events|
  {
    if events == [] then "" else EventText(events[0]) + Render(events[1..])
  }

  /** The HTML written for `data`, or the error raised. */
  function TableHtml(data: seq<seq<string>>): Result<string, ConvertError> {
    match Layouts(data)
    case Err(e) => Err(e)
    case Ok(ls) => Ok(Render(TableEvents(ls)))
  }

  lemma {:induction false} RenderAppend(a: seq<Event>, b: seq<Event>)
    ensures Render(a + b) == Render(a) + Render(b)
    decreases |a|
  {
    if a != [] {
      assert (a + b)[0] == a[0] && (a + b)[1..] == a[1..] + b;
      RenderAppend(a[1..], b);
    } else {
      assert a + b == b;
    }
  }

  lemma RenderPair(e1: Event, e2: Event)
    ensures Render([e1, e2]) == EventText(e1) + EventText(e2)
  {
    assert [e1, e2][1..] == [e2] && [e2][1..] == [];
    assert Render([e2]) == EventText(e2) + "";
  }

  lemma Assoc(x: string, y: string, z: string)
    ensures x + (y + z) == (x + y) + z
  {
  }

  lemma TableAttrsText()
    ensures AttrsText(TableAttrs) == " border='1'" + (" cellpadding='5'" + " cellspacing='0'")
  {
    var attrs := TableAttrs;
    assert attrs[1..] == [("cellpadding", "5"), ("cellspacing", "0")];
    assert attrs[1..][1..] == [("cellspacing", "0")];
    assert attrs[1..][1..][1..] == [];
    assert " cellspacing='0'" + "" == " cellspacing='0'";
  }

  lemma TableTagText()
    ensures "<table" + (" border='1'" + (" cellpadding='5'" + " cellspacing='0'"))
      == "<table border='1' cellpadding='5' cellspacing='0'"
  {
    var b, p, c := " border='1'", " cellpadding='5'", " cellspacing='0'";
    Assoc("<table", b, p + c);
    Assoc("<table" + b, p, c);
    assert "<table" + b == "<table border='1'";
    assert "<table border='1'" + p == "<table border='1' cellpadding='5'";
    assert "<table border='1' cellpadding='5'" + c == "<table border='1' cellpadding='5' cellspacing='0'";
  }

  lemma OpenText()
    ensures Render(OpenEvents) == TableOpen
  {
    var tag := "<table border='1' cellpadding='5' cellspacing='0'";
    TableAttrsText();
    TableTagText();
    assert "<" + "table" == "<table";
    assert EventText(StartTag("table", TableAttrs)) == tag + ">";
    assert tag + ">" + "\n" == TableOpen;
    RenderPair(StartTag("table", TableAttrs), Data("\n"));
  }

  /** The start tag of one cell. */
  lemma CellOpenText(c: HtmlCell)
    ensures EventText(CellEvents(c)[0])
      == (if c.colspan.Some? then "<td colspan='" + c.colspan.value + "'>" else "<td>")
  {
    if c.colspan.Some? {
      var v := c.colspan.value;
      var attrs := [("colspan", v)];
      assert attrs[1..] == [];
      var q := " colspan='";
      assert " " + "colspan" + "='" == q;
      assert AttrsText(attrs) == (q + v) + "'";
      assert "<" + "td" == "<td";
      Assoc("<td", q, v);
      assert "<td" + q == "<td colspan='";
      Assoc("<td", q + v, "'");
      Assoc("<td colspan='" + v, "'", ">");
      assert "'" + ">" == "'>";
    } else {
      assert AttrsText([]) == "";
      assert "<" + "td" + "" + ">" == "<td>";
    }
  }

  /** The text of one cell. */
  lemma CellText(c: HtmlCell)
    ensures Render(CellEvents(c))
      == (if c.colspan.Some? then "<td colspan='" + c.colspan.value + "'>" else "<td>") + c.text + "</td>\n"
  {
    var es := CellEvents(c);
    var head, tail := es[..2], es[2..];
    assert es == head + tail;
    RenderAppend(head, tail);
    RenderPair(es[0], es[1]);
    RenderPair(es[2], es[3]);
    assert head == [es[0], es[1]] && tail == [es[2], es[3]];
    CellOpenText(c);
    assert EventText(es[2]) + EventText(es[3]) == "</td>\n";
  }

  /** The text of one row: its cells between `<tr>` and `</tr>`. */
  lemma RowText(cells: seq<HtmlCell>)
    ensures Render(RowEvents(cells)) == "<tr>\n" + Render(CellsEvents(cells)) + "</tr>\n"
  {
    var head: seq<Event> := [StartTag("tr", []), Data("\n")];
    var tail: seq<Event> := [EndTag("tr"), Data("\n")];
    RenderAppend(head + CellsEvents(cells), tail);
    RenderAppend(head, CellsEvents(cells));
    RenderPair(StartTag("tr", []), Data("\n"));
    RenderPair(EndTag("tr"), Data("\n"));
  }

  // ---------------------------------------------------------------------------
  // `_convert_to_html_table`

  /** The text of one row's cells, built cell by cell; for a data row this is
      the source's inner loop over the first 81 cells. */
  method RowCellsHtml(cells: seq<HtmlCell>) returns (text: string)
    ensures text == Render(CellsEvents(cells))
  {
    text := "";
    for j := 0 to |cells|
      invariant text == Render(CellsEvents(cells[..j]))
    {
      var c := cells[j];
      var open := if c.colspan.Some? then "<td colspan='" + c.colspan.value + "'>" else "<td>";
      CellText(c);
      assert cells[..j + 1][..j] == cells[..j] && cells[..j + 1][j] == c;
      assert CellsEvents(cells[..j + 1]) == CellsEvents(cells[..j]) + CellEvents(c);
      RenderAppend(CellsEvents(cells[..j]), CellEvents(c));
      text := text + (open + c.text + "</td>\n");
    }
    assert cells[..|cells|] == cells;
  }

  /** `_convert_to_html_table`: the fixed opening, one `<tr>` block per row,
      then `</table>`; a row too short for its layout raises. */
  method ConvertToHtmlTable(data: seq<seq<string>>) returns (r: Result<string, ConvertError>)
    ensures r == TableHtml(data)
  {
    OpenText();
    var html := TableOpen;
    ghost var layouts: seq<seq<HtmlCell>> := [];
    assert data[..0] == [] && OpenEvents + RowsEvents(layouts) == OpenEvents;
    for i := 0 to |data|
      invariant Layouts(data[..i]) == Ok(layouts)
      invariant html == Render(OpenEvents + RowsEvents(layouts))
    {
      var layout := RowLayout(i, data[i]);
      if layout.None? {
        LayoutsFail(data, i, layouts);
        return Err(RowTooShort(i));
      }
      var cellsText := RowCellsHtml(layout.value);
      LayoutsStep(data, i, layouts, layout.value);
      RowsStep(layouts, layout.value);
      html := html + ("<tr>\n" + cellsText + "</tr>\n");
      layouts := layouts + [layout.value];
    }
    Finish(data, layouts);
    html := html + TableClose;
    r := Ok(html);
  }

  lemma LayoutsStep(data: seq<seq<string>>, i: nat, layouts: seq<seq<HtmlCell>>, cells: seq<HtmlCell>)
    requires i < |data| && Layouts(data[..i]) == Ok(layouts) && RowLayout(i, data[i]) == Some(cells)
    ensures Layouts(data[..i + 1]) == Ok(layouts + [cells])
  {
    assert data[..i + 1][..i] == data[..i] && data[..i + 1][i] == data[i];
  }

  lemma LayoutsFail(data: seq<seq<string>>, i: nat, layouts: seq<seq<HtmlCell>>)
    requires i < |data| && Layouts(data[..i]) == Ok(layouts) && RowLayout(i, data[i]).None?
    ensures TableHtml(data) == Err(RowTooShort(i))
  {
    assert data[..i + 1][..i] == data[..i] && data[..i + 1][i] == data[i];
    assert Layouts(data[..i + 1]) == Err(RowTooShort(i));
    LayoutsErrorStays(data, i + 1);
  }

  lemma RowsStep(layouts: seq<seq<HtmlCell>>, cells: seq<HtmlCell>)
    ensures Render(OpenEvents + RowsEvents(layouts + [cells]))
      == Render(OpenEvents + RowsEvents(layouts)) + ("<tr>\n" + Render(CellsEvents(cells)) + "</tr>\n")
  {
    RowText(cells);
    assert (layouts + [cells])[..|layouts|] == layouts;
    assert OpenEvents + RowsEvents(layouts + [cells]) == (OpenEvents + RowsEvents(layouts)) + RowEvents(cells);
    RenderAppend(OpenEvents + RowsEvents(layouts), RowEvents(cells));
  }

  lemma Finish(data: seq<seq<string>>, layouts: seq<seq<HtmlCell>>)
    requires Layouts(data[..|data|]) == Ok(layouts)
    ensures TableHtml(data) == Ok(Render(OpenEvents + RowsEvents(layouts)) + TableClose)
  {
    assert data[..|data|] == data;
    RenderAppend(OpenEvents + RowsEvents(layouts), [EndTag("table")]);
    CloseText();
  }

  /** Once a prefix of the rows fails, the whole conversion fails the same way. */
  lemma {:induction false} LayoutsErrorStays(data: seq<seq<string>>, n: nat)
    requires n <= |data| && Layouts(data[..n]).Err?
    ensures Layouts(data) == Layouts(data[..n])
    decreases |data| - n
  {
    if n < |data| {
      assert data[..n + 1][..n] == data[..n];
      LayoutsErrorStays(data, n + 1);
    } else {
      assert data[..n] == data;
    }
  }

  // ---------------------------------------------------------------------------
  // What the written table looks like

  /** Every row has a layout exactly when the conversion succeeds, and then
      the layouts are those of the rows, in order. */
  lemma {:induction false} LayoutsOfRows(data: seq<seq<string>>)
    ensures Layouts(data).Ok? <==> forall i :: 0 <= i < |data| ==> RowLayout(i, data[i]).Some?
    ensures Layouts(data).Ok? ==>
      |Layouts(data).value| == |data|
      && forall i :: 0 <= i < |data| ==> Layouts(data).value[i] == RowLayout(i, data[i]).value
    ensures Layouts(data).Err? ==>
      var k := Layouts(data).error.index;
      k < |data| && RowLayout(k, data[k]).None? && forall i :: 0 <= i < k ==> RowLayout(i, data[i]).Some?
    decreases |data|
  {
    if data != [] {
      var init := data[..|data| - 1];
      LayoutsOfRows(init);
      assert forall i :: 0 <= i < |init| ==> init[i] == data[i];
    }
  }

  /** The conversion fails exactly when row 0 has fewer than 3 cells or row 1
      fewer than 77, and it reports the first of them. */
  lemma ConvertFails(data: seq<seq<string>>)
    ensures TableHtml(data).Err? <==> (|data| >= 1 && |data[0]| < 3) || (|data| >= 2 && |data[1]| < 77)
    ensures TableHtml(data).Err? ==>
      TableHtml(data).error == RowTooShort(if |data[0]| < 3 then 0 else 1)
  {
    LayoutsOfRows(data);
    if |data| >= 1 && |data[0]| < 3 {
      assert RowLayout(0, data[0]).None?;
    } else if |data| >= 2 && |data[1]| < 77 {
      assert RowLayout(1, data[1]).None?;
    } else {
      forall i | 0 <= i < |data|
        ensures RowLayout(i, data[i]).Some?
      {
      }
    }
  }

  predicate IsTag(e: Event, start: bool, tag: string) {
    if start then e.StartTag? && e.tag == tag else e.EndTag? && e.tag == tag
  }

  /** How many start tags (`start`) or end tags (`!start`) named `tag` occur. */
  function CountTags(events: seq<Event>, start: bool, tag: string): nat
    decreases |events|
  {
    if events == [] then 0
    else CountTags(events[..|events| - 1], start, tag) + (if IsTag(events[|events| - 1], start, tag) then 1 else 0)
  }

  lemma {:induction false} CountAppend(a: seq<Event>, b: seq<Event>, start: bool, tag: string)
    ensures CountTags(a + b, start, tag) == CountTags(a, start, tag) + CountTags(b, start, tag)
    decreases |b|
  {
    if b == [] {
      assert a + b == a;
    } else {
      var b' := b[..|b| - 1];
      assert (a + b)[..|a + b| - 1] == a + b' && (a + b)[|a + b| - 1] == b[|b| - 1];
      CountAppend(a, b', start, tag);
    }
  }

  lemma CountPair(e1: Event, e2: Event, start: bool, tag: string)
    ensures CountTags([e1, e2], start, tag)
      == (if IsTag(e1, start, tag) then 1 else 0) + (if IsTag(e2, start, tag) then 1 else 0)
  {
    var s := [e1, e2];
    assert s[..|s| - 1] == [e1] && s[|s| - 1] == e2;
    assert [e1][..0] == [] && [e1][0] == e1;
    assert CountTags([e1], start, tag) == CountTags([], start, tag) + (if IsTag(e1, start, tag) then 1 else 0);
  }

  /** The total number of cells written. */
  function CellTotal(layouts: seq<seq<HtmlCell>>): nat
    decreases |layouts|
  {
    if layouts == [] then 0 else CellTotal(layouts[..|layouts| - 1]) + |layouts[|layouts| - 1]|
  }

  /** The tag counts of the table's structural tags. */
  function Expected(tag: string, rows: nat, cells: nat): nat {
    if tag == "tr" then rows else if tag == "td" then cells else 0
  }

  lemma {:induction false} CellsTagCount(cells: seq<HtmlCell>, start: bool, tag: string)
    requires tag == "td" || tag == "tr" || tag == "table"
    ensures CountTags(CellsEvents(cells), start, tag) == Expected(tag, 0, |cells|)
    decreases |cells|
  {
    if cells != [] {
      var c := cells[|cells| - 1];
      CellsTagCount(cells[..|cells| - 1], start, tag);
      CountAppend(CellsEvents(cells[..|cells| - 1]), CellEvents(c), start, tag);
      var es := CellEvents(c);
      CountPair(es[0], es[1], start, tag);
      CountPair(es[2], es[3], start, tag);
      assert es == [es[0], es[1]] + [es[2], es[3]];
      CountAppend([es[0], es[1]], [es[2], es[3]], start, tag);
    }
  }

  lemma RowTagCount(cells: seq<HtmlCell>, start: bool, tag: string)
    requires tag == "td" || tag == "tr" || tag == "table"
    ensures CountTags(RowEvents(cells), start, tag) == Expected(tag, 1, |cells|)
  {
    var head: seq<Event> := [StartTag("tr", []), Data("\n")];
    var tail: seq<Event> := [EndTag("tr"), Data("\n")];
    CellsTagCount(cells, start, tag);
    CountAppend(head + CellsEvents(cells), tail, start, tag);
    CountAppend(head, CellsEvents(cells), start, tag);
    CountPair(head[0], head[1], start, tag);
    CountPair(tail[0], tail[1], start, tag);
  }

  lemma {:induction false} RowsTagCount(layouts: seq<seq<HtmlCell>>, start: bool, tag: string)
    requires tag == "td" || tag == "tr" || tag == "table"
    ensures CountTags(RowsEvents(layouts), start, tag) == Expected(tag, |layouts|, CellTotal(layouts))
    decreases |layouts|
  {
    if layouts != [] {
      var last := layouts[|layouts| - 1];
      RowsTagCount(layouts[..|layouts| - 1], start, tag);
      RowTagCount(last, start, tag);
      CountAppend(RowsEvents(layouts[..|layouts| - 1]), RowEvents(last), start, tag);
    }
  }

  /** The text of `</table>`. */
  lemma CloseText()
    ensures Render([EndTag("table")]) == TableClose
  {
    var close: seq<Event> := [EndTag("table")];
    assert close[1..] == [];
    assert Render(close) == "</" + "table" + ">" + "";
  }

  /** A text built as `open + (middle + close)` starts with `open` and ends
      with `close`. */
  lemma Framed(open: string, middle: string, close: string)
    ensures var html := open + (middle + close);
      Text.StartsWith(html, open) && |html| >= |open| + |close|
      && html[|html| - |close|..] == close
  {
    var html := open + (middle + close);
    assert html[..|open|] == open;
  }

  /** The text of a table: the fixed opening, the rows, `</table>`. */
  lemma TableText(ls: seq<seq<HtmlCell>>)
    ensures var html := Render(TableEvents(ls));
      Text.StartsWith(html, TableOpen) && |html| >= |TableOpen| + |TableClose|
      && html[|html| - |TableClose|..] == TableClose
  {
    var rows := RowsEvents(ls);
    var close: seq<Event> := [EndTag("table")];
    assert TableEvents(ls) == (OpenEvents + rows) + close;
    RenderAppend(OpenEvents + rows, close);
    RenderAppend(OpenEvents, rows);
    OpenText();
    CloseText();
    Framed(TableOpen, Render(rows), TableClose);
  }

  /** The tags of a table: one `table`, one `tr` per row, one `td` per cell. */
  lemma TableTags(ls: seq<seq<HtmlCell>>, start: bool, tag: string)
    requires tag == "td" || tag == "tr" || tag == "table"
    ensures CountTags(TableEvents(ls), start, tag) == Expected(tag, |ls|, CellTotal(ls)) + (if tag == "table" then 1 else 0)
  {
    var rows := RowsEvents(ls);
    var close: seq<Event> := [EndTag("table")];
    assert TableEvents(ls) == (OpenEvents + rows) + close;
    RowsTagCount(ls, start, tag);
    CountAppend(OpenEvents + rows, close, start, tag);
    CountAppend(OpenEvents, rows, start, tag);
    CountPair(OpenEvents[0], OpenEvents[1], start, tag);
    assert close[..0] == [] && close[0] == EndTag("table");
  }

  /** A converted table is the fixed opening, the rows and `</table>`. */
  lemma ConvertedText(data: seq<seq<string>>)
    requires TableHtml(data).Ok?
    ensures var html := TableHtml(data).value;
      Text.StartsWith(html, TableOpen) && |html| >= |TableOpen| + |TableClose|
      && html[|html| - |TableClose|..] == TableClose
  {
    TableText(Layouts(data).value);
  }

  /** A converted table has one `table` element, one `tr` element per input
      row and one `td` element per written cell. */
  lemma ConvertedTags(data: seq<seq<string>>, start: bool)
    requires TableHtml(data).Ok?
    ensures var events := TableEvents(Layouts(data).value);
      && TableHtml(data).value == Render(events)
      && CountTags(events, start, "table") == 1
      && CountTags(events, start, "tr") == |data|
      && CountTags(events, start, "td") == CellTotal(Layouts(data).value)
  {
    var ls := Layouts(data).value;
    LayoutsOfRows(data);
    TableTags(ls, start, "table");
    TableTags(ls, start, "tr");
    TableTags(ls, start, "td");
  }
}
