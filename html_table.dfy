/** The HTML table reader of the spreadsheet exporter: an event-driven parser
    that collects the cell texts of every `<table>` in a description, and the
    short text preview built from the first table it finds.

    Python lists are objects shared by reference: the parser appends the list
    held in `current_row` to `current_table`, and that list to `tables`, and
    keeps appending to them afterwards. `RowList` and `TableList` stand for
    those lists, so a later append shows through every place that holds the
    same list, exactly as in the source (this matters only when end tags come
    in an unusual order, such as `</tr>` after `</table>`). */
module HtmlTable {
  import opened Wrappers
  import Text

  /** One `<tr>` being collected: a Python list of cell strings. */
  class RowList {
    var cells: seq<string>

    constructor ()
      ensures cells == []
    {
      cells := [];
    }
  }

  /** One `<table>` being collected: a Python list of row lists. */
  class TableList {
    var rows: seq<RowList>

    constructor ()
      ensures rows == []
    {
      rows := [];
    }
  }

  /** What the tokenizer reports, in document order: a start tag, an end tag
      or a run of text (tag names arrive lower-cased). */
  datatype Event =
    | StartTag(tag: string, attrs: seq<(string, string)>)
    | EndTag(tag: string)
    | Data(text: string)

  predicate IsCellTag(tag: string) {
    tag == "td" || tag == "th"
  }

  predicate AllStripped(cells: seq<string>) {
    forall i :: 0 <= i < |cells| ==> Text.IsStripped(cells[i])
  }

  /** A row as it may sit in a table: not empty, every cell stripped. */
  ghost predicate StoredRow(r: RowList)
    reads r
  {
    r.cells != [] && AllStripped(r.cells)
  }

  /** The cell texts of some row lists, as values. */
  function RowsCells(rows: seq<RowList>): (cells: seq<seq<string>>)
    reads rows
    ensures |cells| == |rows|
    ensures forall i :: 0 <= i < |rows| ==> cells[i] == rows[i].cells
    decreases |rows|
  {
    if rows == [] then [] else RowsCells(rows[..|rows| - 1]) + [rows[|rows| - 1].cells]
  }

  class HTMLTableParser {
    var tables: seq<TableList>
    var currentTable: TableList
    var currentRow: RowList
    var currentCell: string
    var inTable: bool
    var inRow: bool
    var inCell: bool

    /** The row lists held by the tables already collected. */
    ghost function StoredRows(): set<RowList>
      reads this, tables
    {
      set t, r | t in tables && r in t.rows :: r
    }

    /** What the handlers keep true: no collected table is empty, no row
        appended to a table is empty, and every cell text is stripped. */
    ghost predicate Valid()
      reads this, tables, currentTable, StoredRows(), currentTable.rows, currentRow
    {
      && (forall t :: t in tables ==> t.rows != [])
      && (forall r :: r in StoredRows() ==> StoredRow(r))
      && (forall r :: r in currentTable.rows ==> StoredRow(r))
      && AllStripped(currentRow.cells)
    }

    /** `__init__`: nothing collected, outside any table. */
    constructor ()
      ensures Valid()
      ensures tables == [] && currentTable.rows == [] && currentRow.cells == [] && currentCell == ""
      ensures !inTable && !inRow && !inCell
      ensures fresh(currentTable) && fresh(currentRow)
    {
      tables := [];
      currentTable := new TableList();
      currentRow := new RowList();
      currentCell := "";
      inTable, inRow, inCell := false, false, false;
    }

    /** `handle_starttag`: a `table` always starts a new table; a `tr` starts
        a new row only inside a table; a `td`/`th` starts a new cell only
        inside a row. Other tags, and all attributes, change nothing. */
    method HandleStartTag(tag: string, attrs: seq<(string, string)>)
      requires Valid()
      modifies this
      ensures Valid()
      ensures tables == old(tables) && currentCell == (if IsCellTag(tag) && old(inRow) then "" else old(currentCell))
      ensures tag == "table" ==>
        inTable && inRow == old(inRow) && inCell == old(inCell)
        && fresh(currentTable) && currentTable.rows == [] && currentRow == old(currentRow)
      ensures tag == "tr" ==>
        inTable == old(inTable) && inRow == (old(inRow) || old(inTable)) && inCell == old(inCell)
        && currentTable == old(currentTable)
        && (if old(inTable) then fresh(currentRow) && currentRow.cells == [] else currentRow == old(currentRow))
      ensures IsCellTag(tag) ==>
        inTable == old(inTable) && inRow == old(inRow) && inCell == (old(inCell) || old(inRow))
        && currentTable == old(currentTable) && currentRow == old(currentRow)
      ensures tag != "table" && tag != "tr" && !IsCellTag(tag) ==>
        inTable == old(inTable) && inRow == old(inRow) && inCell == old(inCell)
        && currentTable == old(currentTable) && currentRow == old(currentRow)
    {
      if tag == "table" {
        inTable := true;
        currentTable := new TableList();
      } else if tag == "tr" && inTable {
        inRow := true;
        currentRow := new RowList();
      } else if IsCellTag(tag) && inRow {
        inCell := true;
        currentCell := "";
      }
    }

    /** `handle_endtag`: `</table>` leaves the table and collects it if it
        has rows; `</tr>` inside a row appends the row to the current table
        if it has cells; `</td>`/`</th>` inside a cell appends the stripped
        cell text to the current row. Other tags change nothing. */
    method HandleEndTag(tag: string)
      requires Valid()
      modifies this, currentTable, currentRow
      ensures Valid()
      ensures currentTable == old(currentTable) && currentRow == old(currentRow) && currentCell == old(currentCell)
      ensures tag == "table" ==>
        !inTable && inRow == old(inRow) && inCell == old(inCell)
        && tables == old(tables) + (if old(currentTable.rows) != [] then [currentTable] else [])
        && currentTable.rows == old(currentTable.rows) && currentRow.cells == old(currentRow.cells)
      ensures tag == "tr" ==>
        inTable == old(inTable) && inRow == false && inCell == old(inCell) && tables == old(tables)
        && currentTable.rows == old(currentTable.rows) + (if old(inRow) && old(currentRow.cells) != [] then [currentRow] else [])
        && currentRow.cells == old(currentRow.cells)
      ensures IsCellTag(tag) ==>
        inTable == old(inTable) && inRow == old(inRow) && inCell == false && tables == old(tables)
        && currentTable.rows == old(currentTable.rows)
        && currentRow.cells == old(currentRow.cells) + (if old(inCell) then [Text.Strip(old(currentCell))] else [])
      ensures tag != "table" && tag != "tr" && !IsCellTag(tag) ==>
        inTable == old(inTable) && inRow == old(inRow) && inCell == old(inCell) && tables == old(tables)
        && currentTable.rows == old(currentTable.rows) && currentRow.cells == old(currentRow.cells)
    {
      if tag == "table" {
        EndTable();
      } else if tag == "tr" && inRow {
        EndRow();
      } else if IsCellTag(tag) && inCell {
        EndCell();
      }
    }

    /** The `</table>` branch of `handle_endtag`. */
    method EndTable()
      requires Valid()
      modifies this
      ensures Valid()
      ensures currentTable == old(currentTable) && currentRow == old(currentRow) && currentCell == old(currentCell)
      ensures !inTable && inRow == old(inRow) && inCell == old(inCell)
      ensures tables == old(tables) + (if currentTable.rows != [] then [currentTable] else [])
    {
      inTable := false;
      if currentTable.rows != [] {
        tables := tables + [currentTable];
      }
    }

    /** The `</tr>` branch of `handle_endtag`, inside a row. */
    method EndRow()
      requires Valid()
      modifies this, currentTable
      ensures Valid()
      ensures currentTable == old(currentTable) && currentRow == old(currentRow) && currentCell == old(currentCell)
      ensures inTable == old(inTable) && inRow == false && inCell == old(inCell) && tables == old(tables)
      ensures currentTable.rows == old(currentTable.rows) + (if currentRow.cells != [] then [currentRow] else [])
      ensures currentRow.cells == old(currentRow.cells)
    {
      inRow := false;
      if currentRow.cells != [] {
        currentTable.rows := currentTable.rows + [currentRow];
      }
    }

    /** The `</td>`/`</th>` branch of `handle_endtag`, inside a cell. */
    method EndCell()
      requires Valid()
      modifies this, currentRow
      ensures Valid()
      ensures currentTable == old(currentTable) && currentRow == old(currentRow) && currentCell == old(currentCell)
      ensures inTable == old(inTable) && inRow == old(inRow) && inCell == false && tables == old(tables)
      ensures currentTable.rows == old(currentTable.rows)
      ensures currentRow.cells == old(currentRow.cells) + [Text.Strip(currentCell)]
    {
      inCell := false;
      currentRow.cells := currentRow.cells + [Text.Strip(currentCell)];
    }

    /** `handle_data`: text is added to the current cell only inside a cell,
        and nothing else changes. */
    method HandleData(data: string)
      requires Valid()
      modifies this
      ensures Valid()
      ensures currentCell == old(currentCell) + (if inCell then data else "")
      ensures tables == old(tables) && currentTable == old(currentTable) && currentRow == old(currentRow)
      ensures inTable == old(inTable) && inRow == old(inRow) && inCell == old(inCell)
    {
      if inCell {
        currentCell := currentCell + data;
      }
    }

    /** `feed`, with the tokenizer's output given as events: each event goes
        to its handler, in order. Tables already collected stay collected,
        and at most one table is collected per `</table>`. */
    method Feed(events: seq<Event>)
      requires Valid()
      modifies this, currentTable, currentRow
      ensures Valid()
      ensures |old(tables)| <= |tables| && tables[..|old(tables)|] == old(tables)
      ensures |tables| <= |old(tables)| + TableEnds(events)
    {
      for k := 0 to |events|
        invariant Valid()
        invariant currentTable == old(currentTable) || fresh(currentTable)
        invariant currentRow == old(currentRow) || fresh(currentRow)
        invariant |old(tables)| <= |tables| && tables[..|old(tables)|] == old(tables)
        invariant |tables| <= |old(tables)| + TableEnds(events[..k])
      {
        assert events[..k + 1][..k] == events[..k];
        match events[k]
        case StartTag(tag, attrs) => HandleStartTag(tag, attrs);
        case EndTag(tag) => HandleEndTag(tag);
        case Data(text) => HandleData(text);
      }
      assert events[..|events|] == events;
    }
  }

  /** The number of `</table>` events. */
  function TableEnds(events: seq<Event>): nat
    decreases |events|
  {
    if events == [] then 0
    else TableEnds(events[..|events| - 1]) + (if events[|events| - 1] == EndTag("table") then 1 else 0)
  }

  // ---------------------------------------------------------------------------
  // The preview of the first table

  function Min(a: int, b: int): int {
    if a < b then a else b
  }

  /** One preview line: the first four cells of a row, joined by " | ". */
  function PreviewLine(row: seq<string>): string {
    Text.Join(row[..Min(4, |row|)], " | ")
  }

  /** The preview lines of a table: one for each of its first three rows. */
  function PreviewLines(table: seq<seq<string>>): (lines: seq<string>)
    ensures |lines| == Min(3, |table|) <= 3
    ensures forall i :: 0 <= i < |lines| ==> lines[i] == PreviewLine(table[i])
  {
    seq(Min(3, |table|), i requires 0 <= i < Min(3, |table|) => PreviewLine(table[i]))
  }

  /** The preview text: the preview lines joined by newlines. */
  function Preview(table: seq<seq<string>>): string {
    Text.Join(PreviewLines(table), "\n")
  }

  /** The loop that builds the preview lines of the first table. */
  method TablePreview(first: TableList) returns (text: string)
    ensures text == Preview(RowsCells(first.rows))
  {
    var count := Min(3, |first.rows|);
    var lines: seq<string> := [];
    for i := 0 to count
      invariant |lines| == i
      invariant forall j :: 0 <= j < i ==> lines[j] == PreviewLine(first.rows[j].cells)
    {
      var row := first.rows[i].cells;
      lines := lines + [Text.Join(row[..Min(4, |row|)], " | ")];
    }
    assert lines == PreviewLines(RowsCells(first.rows));
    text := Text.Join(lines, "\n");
  }

  /** The row lists held by some table lists. */
  ghost function TableRows(tables: seq<TableList>): set<RowList>
    reads tables
  {
    set t, r | t in tables && r in t.rows :: r
  }

  /** The cell texts of the tables a parser collected, as values. */
  ghost function TablesCells(tables: seq<TableList>): (cells: seq<seq<seq<string>>>)
    reads tables, TableRows(tables)
    ensures |cells| == |tables|
    ensures forall i :: 0 <= i < |tables| ==> cells[i] == RowsCells(tables[i].rows)
    decreases |tables|
  {
    if tables == [] then []
    else
      var last := tables[|tables| - 1];
      assert forall r :: r in last.rows ==> r in TableRows(tables);
      TablesCells(tables[..|tables| - 1]) + [RowsCells(last.rows)]
  }

  /** `_extract_table_preview`, table branch: an empty description gives "";
      otherwise the events (what the tokenizer reports for the description)
      are fed to a new parser, and `collected` is what it collected. When
      that is a table or more, the result is the preview of the first one;
      `None` stands for the tag-stripping branch taken when no table was
      collected. */
  method ExtractTablePreview(description: string, events: seq<Event>)
    returns (r: Option<string>, ghost collected: seq<seq<seq<string>>>)
    ensures description == "" ==> r == Some("")
    ensures description != "" ==> (r.None? <==> collected == [])
    ensures description != "" && r.Some? ==> r.value == Preview(collected[0])
    ensures description != "" ==> |collected| <= TableEnds(events)
    ensures forall i, j :: 0 <= i < |collected| && 0 <= j < |collected[i]| ==>
      collected[i][j] != [] && AllStripped(collected[i][j])
    ensures forall i :: 0 <= i < |collected| ==> collected[i] != []
  {
    if description == "" {
      return Some(""), [];
    }
    var parser := new HTMLTableParser();
    parser.Feed(events);
    collected := TablesCells(parser.tables);
    forall i, j | 0 <= i < |collected| && 0 <= j < |collected[i]|
      ensures collected[i][j] != [] && AllStripped(collected[i][j])
    {
      var t := parser.tables[i];
      assert t in parser.tables && t.rows[j] in t.rows;
      assert t.rows[j] in parser.StoredRows();
    }
    if parser.tables == [] {
      return None, collected;
    }
    var text := TablePreview(parser.tables[0]);
    r := Some(text);
  }

  /** A character that is in no part and not in the separator is not in
      their join. */
  lemma {:induction false} JoinAvoids(parts: seq<string>, sep: string, c: char)
    requires c !in sep
    requires forall k :: 0 <= k < |parts| ==> c !in parts[k]
    ensures c !in Text.Join(parts, sep)
    decreases |parts|
  {
    if |parts| > 1 {
      JoinAvoids(parts[1..], sep, c);
    }
  }

  /** When no cell holds a newline, splitting the preview at newlines gives
      back its lines: at most three, one per leading row. */
  lemma PreviewReadsBack(table: seq<seq<string>>)
    requires table != []
    requires forall i, j :: 0 <= i < |table| && 0 <= j < |table[i]| ==> '\n' !in table[i][j]
    ensures Text.Split(Preview(table), '\n') == PreviewLines(table)
    ensures |Text.Split(Preview(table), '\n')| == Min(3, |table|)
  {
    var lines := PreviewLines(table);
    forall k | 0 <= k < |lines|
      ensures '\n' !in lines[k]
    {
      var row := table[k];
      JoinAvoids(row[..Min(4, |row|)], " | ", '\n');
    }
    Text.SplitJoin(lines, '\n');
  }
}
