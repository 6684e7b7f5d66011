/** `RequirementParser`: the `Trigger_edit` worksheet holds one block per
    fault trigger, a `【JAMA_ID】name` header in column A followed by a small
    key/value table; `validate_trigger` checks a record's required fields;
    the hierarchy filter keeps the triggers of one requirement subtree.
    Opening the workbook is outside the model: a worksheet is its cells. */
module RequirementParser {
  import opened Wrappers
  import opened Text
  import opened PyValues
  import opened ScenarioDocument
  import opened Sequences

  /** A worksheet: its last used row and its non-empty cells, by column
      letter and 1-based row. */
  datatype Sheet = Sheet(maxRow: int, cells: map<(char, int), Value>)

  /** `ws[f"{col}{row}"].value`; an empty cell reads as None. */
  function Cell(sheet: Sheet, col: char, row: int): Value {
    if (col, row) in sheet.cells then sheet.cells[(col, row)] else VNone
  }

  // ---------------------------------------------------------------------------
  // Block headers

  const OpenBracket: char := '【'
  const CloseBracket: char := '】'

  /** Column A starts a trigger block: a string that starts with "【" and
      contains "】". */
  predicate IsHeader(v: Value) {
    Truthy(v) && v.VStr? && StartsWith(v.s, [OpenBracket]) && CloseBracket in v.s
  }

  /** `cell_a.split("】", 1)`: the text before the first "】" and the rest
      (`parts[1]`, or "" when there is no second part). */
  function SplitHeader(s: string): (r: (string, string))
    ensures CloseBracket in s ==> r.0 + [CloseBracket] + r.1 == s && CloseBracket !in r.0
    ensures CloseBracket !in s ==> r == (s, "")
  {
    match IndexOf(s, CloseBracket)
    case None => (s, "")
    case Some(k) =>
      assert s[..k] + [CloseBracket] + s[k + 1..] == s;
      (s[..k], s[k + 1..])
  }

  /** `jama_id`: the part before "】" without any "【", stripped. */
  function HeaderId(s: string): (r: string)
    ensures OpenBracket !in r && IsStripped(r)
  {
    var id := Strip(RemoveChar(SplitHeader(s).0, OpenBracket));
    StripKeepsOut(RemoveChar(SplitHeader(s).0, OpenBracket), OpenBracket);
    id
  }

  /** `requirement_name`: the part after the first "】", stripped. */
  function HeaderName(s: string): (r: string)
    ensures IsStripped(r)
  {
    Strip(SplitHeader(s).1)
  }

  lemma StripKeepsOut(s: string, c: char)
    requires c !in s
    ensures c !in Strip(s)
  {
    var a := StripStart(s);
    var r := StripEnd(a);
    assert Strip(s) == r;
    forall i | 0 <= i < |r|
      ensures r[i] != c
    {
      assert r[i] == a[i] == s[|s| - |a| + i];
    }
  }

  /** A header written from an id and a name reads back as that id and name. */
  lemma HeaderRoundTrip(id: string, name: string)
    requires OpenBracket !in id && CloseBracket !in id && IsStripped(id) && IsStripped(name)
    ensures IsHeader(VStr([OpenBracket] + id + [CloseBracket] + name))
    ensures HeaderId([OpenBracket] + id + [CloseBracket] + name) == id
    ensures HeaderName([OpenBracket] + id + [CloseBracket] + name) == name
  {
    var s := [OpenBracket] + id + [CloseBracket] + name;
    assert s[|id| + 1] == CloseBracket;
    assert s[..|id| + 1] == [OpenBracket] + id;
    assert s[|id| + 2..] == name;
    assert StartsWith(s, [OpenBracket]) by {
      assert s[..1] == [OpenBracket];
    }
    var parts := SplitHeader(s);
    var k := IndexOf(s, CloseBracket).value;
    assert CloseBracket !in s[..|id| + 1];
    assert k == |id| + 1;
    var before := [OpenBracket] + id;
    assert parts.0 == before;
    assert RemoveChar(before, OpenBracket) == id by {
      RemoveFirst(id, OpenBracket);
    }
  }

  lemma RemoveFirst(s: string, c: char)
    requires c !in s
    ensures RemoveChar([c] + s, c) == s
  {
    assert ([c] + s)[1..] == s;
  }

  /** The record a header opens, before its table is read. */
  function HeaderTrigger(s: string): (t: Trigger)
    ensures t.jamaId == Some(VStr(HeaderId(s))) && t.requirementName == Some(VStr(HeaderName(s)))
    ensures t.signalName == Some(VStr("")) && t.value == Some(VStr(""))
    ensures t.actionType == Some(VStr("")) && t.remarks == Some(VStr("")) && t.target.None?
  {
    Trigger(Some(VStr(HeaderId(s))), Some(VStr(HeaderName(s))),
            Some(VStr("")), Some(VStr("")), Some(VStr("")), Some(VStr("")), None)
  }

  // ---------------------------------------------------------------------------
  // The key/value table under a header

  const SignalLabel := "信号名"
  const ValueLabel := "値"
  const ActionTypeLabel := "アクションタイプ"
  const RemarksLabel := "備考"
  const TableRows := 5

  /** A table row: its stripped key and stripped value ("" for an empty
      value cell), or None when the key cell is empty. */
  function Entry(sheet: Sheet, row: int): (r: Option<(string, string)>)
    ensures r.Some? <==> Truthy(Cell(sheet, 'A', row))
  {
    var name := Cell(sheet, 'A', row);
    var value := Cell(sheet, 'B', row);
    if !Truthy(name) then None
    else Some((Strip(Str(name)), if Truthy(value) then Strip(Str(value)) else ""))
  }

  /** The value cell's text as `int`, else as `float`, else kept as text. */
  function ConvertValue(s: string): (v: Value)
    ensures v.VInt? || v.VFloat? || v.VStr?
  {
    match ParseInt(s)
    case Some(n) => VInt(n)
    case None => if IsFloatText(s) then VFloat(s) else VStr(s)
  }

  /** The value is an int exactly when the text is integer text, else a
      float exactly when it is float text, else the text itself. */
  lemma ConvertValueCases(s: string)
    ensures var v := ConvertValue(s);
      && (v.VInt? <==> ParseInt(s).Some?)
      && (v.VInt? ==> Some(v.i) == ParseInt(s))
      && (v.VFloat? <==> ParseInt(s).None? && IsFloatText(s))
      && (!v.VInt? ==> Str(v) == s)
  {
  }

  /** Integer text converts to that integer. */
  lemma ConvertIntText(n: int)
    ensures ConvertValue(IntToString(n)) == VInt(n)
  {
    ParseIntToString(n);
  }

  /** One labelled row applied to the record; other labels change nothing. */
  function ApplyEntry(t: Trigger, key: string, value: string): Trigger {
    if key == SignalLabel then t.(signalName := Some(VStr(value)))
    else if key == ValueLabel then t.(value := Some(ConvertValue(value)))
    else if key == ActionTypeLabel then t.(actionType := Some(VStr(value)))
    else if key == RemarksLabel then t.(remarks := Some(VStr(value)))
    else t
  }

  /** The entries of the table rows `start` .. `start + 4`. */
  function TableEntries(sheet: Sheet, start: int): (es: seq<Option<(string, string)>>)
    ensures |es| == TableRows
  {
    seq(TableRows, i requires 0 <= i < TableRows => Entry(sheet, start + i))
  }

  /** The record after the entries, in row order. */
  function FillTable(t: Trigger, es: seq<Option<(string, string)>>): Trigger
    decreases |es|
  {
    if es == [] then t
    else
      var before := FillTable(t, es[..|es| - 1]);
      match es[|es| - 1]
      case None => before
      case Some((key, value)) => ApplyEntry(before, key, value)
  }

  /** The record the table under a header fills in. */
  function TableTrigger(sheet: Sheet, start: int, t: Trigger): Trigger {
    FillTable(t, TableEntries(sheet, start))
  }

  /** `_parse_trigger_table`: reads rows `start` .. `start + 4` into the
      record. */
  method ParseTriggerTable(sheet: Sheet, start: int, trigger: Trigger) returns (r: Trigger)
    ensures r == TableTrigger(sheet, start, trigger)
  {
    ghost var es := TableEntries(sheet, start);
    r := trigger;
    for i := 0 to TableRows
      invariant r == FillTable(trigger, es[..i])
    {
      var entry := Entry(sheet, start + i);
      FillTableStep(trigger, es, i);
      assert entry == es[i];
      if entry.None? {
        continue;
      }
      var (key, value) := entry.value;
      r := ApplyEntry(r, key, value);
    }
    assert es[..TableRows] == es;
  }

  /** Filling from one more entry applies that entry to the record. */
  lemma FillTableStep(t: Trigger, es: seq<Option<(string, string)>>, i: nat)
    requires i < |es|
    ensures FillTable(t, es[..i + 1]) ==
      match es[i]
      case None => FillTable(t, es[..i])
      case Some((key, value)) => ApplyEntry(FillTable(t, es[..i]), key, value)
  {
    assert es[..i + 1][..i] == es[..i];
  }

  /** An entry carries the label `key`. */
  predicate Labelled(e: Option<(string, string)>, key: string) {
    e.Some? && e.value.0 == key
  }

  /** The position of the last entry labelled `key`. */
  function LastLabelled(es: seq<Option<(string, string)>>, key: string): (r: Option<nat>)
    ensures r.Some? ==> r.value < |es| && Labelled(es[r.value], key)
    ensures r.Some? ==> forall j :: r.value < j < |es| ==> !Labelled(es[j], key)
    ensures r.None? ==> forall j :: 0 <= j < |es| ==> !Labelled(es[j], key)
    decreases |es|
  {
    if es == [] then None
    else if Labelled(es[|es| - 1], key) then Some(|es| - 1)
    else LastLabelled(es[..|es| - 1], key)
  }

  /** What a field becomes: the value of the last entry with its label, or
      what it was when no entry has that label. */
  function FieldAfter(es: seq<Option<(string, string)>>, key: string, before: Option<Value>, convert: bool): Option<Value> {
    match LastLabelled(es, key)
    case None => before
    case Some(j) =>
      var text := es[j].value.1;
      Some(if convert then ConvertValue(text) else VStr(text))
  }

  /** Only the four labelled fields change, each to the value of the last
      row carrying its label; empty and unknown labels are ignored. */
  lemma {:induction false} FillTableLastLabelWins(t: Trigger, es: seq<Option<(string, string)>>)
    ensures var r := FillTable(t, es);
      && r.jamaId == t.jamaId && r.requirementName == t.requirementName && r.target == t.target
      && r.signalName == FieldAfter(es, SignalLabel, t.signalName, false)
      && r.value == FieldAfter(es, ValueLabel, t.value, true)
      && r.actionType == FieldAfter(es, ActionTypeLabel, t.actionType, false)
      && r.remarks == FieldAfter(es, RemarksLabel, t.remarks, false)
    decreases |es|
  {
    if es != [] {
      var init := es[..|es| - 1];
      FillTableLastLabelWins(t, init);
      FieldAfterStep(es, SignalLabel, t.signalName, false);
      FieldAfterStep(es, ValueLabel, t.value, true);
      FieldAfterStep(es, ActionTypeLabel, t.actionType, false);
      FieldAfterStep(es, RemarksLabel, t.remarks, false);
    }
  }

  /** A field after one more entry: that entry's value when it carries the
      field's label, otherwise the field after the earlier entries. */
  lemma FieldAfterStep(es: seq<Option<(string, string)>>, key: string, before: Option<Value>, convert: bool)
    requires es != []
    ensures FieldAfter(es, key, before, convert) ==
      if Labelled(es[|es| - 1], key) then
        Some(if convert then ConvertValue(es[|es| - 1].value.1) else VStr(es[|es| - 1].value.1))
      else FieldAfter(es[..|es| - 1], key, before, convert)
  {
    if !Labelled(es[|es| - 1], key) {
      assert LastLabelled(es, key) == LastLabelled(es[..|es| - 1], key);
    }
  }

  // ---------------------------------------------------------------------------
  // Scanning the sheet

  const HeaderSkip := 10

  /** The record of the block whose header is in row `row`. */
  function BlockTrigger(sheet: Sheet, row: int): Trigger {
    TableTrigger(sheet, row + 2, HeaderTrigger(Str(Cell(sheet, 'A', row))))
  }

  function Remaining(sheet: Sheet, row: int): nat {
    if row <= sheet.maxRow then sheet.maxRow - row + 1 else 0
  }

  /** The header rows the scan stops at, from `row` on: after a header it
      resumes 10 rows later, otherwise at the next row. */
  function HeaderRows(sheet: Sheet, row: int): (rows: seq<int>)
    ensures forall i :: 0 <= i < |rows| ==> row <= rows[i] <= sheet.maxRow && IsHeader(Cell(sheet, 'A', rows[i]))
    decreases Remaining(sheet, row)
  {
    if row > sheet.maxRow then []
    else if IsHeader(Cell(sheet, 'A', row)) then [row] + HeaderRows(sheet, row + HeaderSkip)
    else HeaderRows(sheet, row + 1)
  }

  /** The records of the blocks whose headers are in `rows`, in order. */
  function Blocks(sheet: Sheet, rows: seq<int>): (r: seq<Trigger>)
    ensures |r| == |rows|
    decreases |rows|
  {
    if rows == [] then []
    else Blocks(sheet, rows[..|rows| - 1]) + [BlockTrigger(sheet, rows[|rows| - 1])]
  }

  /** The `i`-th record is the block at the `i`-th header row. */
  lemma {:induction false} BlocksAt(sheet: Sheet, rows: seq<int>, i: nat)
    requires i < |rows|
    ensures Blocks(sheet, rows)[i] == BlockTrigger(sheet, rows[i])
    decreases |rows|
  {
    if i < |rows| - 1 {
      BlocksAt(sheet, rows[..|rows| - 1], i);
    }
  }

  /** `_parse_trigger_sheet`: the trigger records of the sheet, one per
      header row the scan stops at, in sheet order. */
  function ParseSheet(sheet: Sheet): (r: seq<Trigger>)
    ensures |r| == |HeaderRows(sheet, 1)|
  {
    Blocks(sheet, HeaderRows(sheet, 1))
  }

  lemma BlocksAppend(sheet: Sheet, rows: seq<int>, row: int)
    ensures Blocks(sheet, rows + [row]) == Blocks(sheet, rows) + [BlockTrigger(sheet, row)]
  {
    assert (rows + [row])[..|rows|] == rows;
  }

  /** Closing the open block and reading the one at `row` extends the
      records by the block at `row`. */
  lemma BlockStep(sheet: Sheet, rows: seq<int>, row: int, closed: seq<Trigger>, block: Trigger)
    requires closed == Blocks(sheet, rows)
    requires IsHeader(Cell(sheet, 'A', row))
    requires block == BlockTrigger(sheet, row)
    ensures closed + Opened(Some(block)) == Blocks(sheet, rows + [row])
  {
    BlocksAppend(sheet, rows, row);
  }

  /** The block still open, as the list it contributes. */
  function Opened(current: Option<Trigger>): seq<Trigger> {
    if current.Some? then [current.value] else []
  }

  /** One row of the scan: a header row is recorded and the scan resumes
      10 rows later; any other row is passed over. */
  lemma ScanStep(sheet: Sheet, row: int, visited: seq<int>)
    requires row <= sheet.maxRow
    requires visited + HeaderRows(sheet, row) == HeaderRows(sheet, 1)
    ensures IsHeader(Cell(sheet, 'A', row)) ==>
      (visited + [row]) + HeaderRows(sheet, row + HeaderSkip) == HeaderRows(sheet, 1)
    ensures !IsHeader(Cell(sheet, 'A', row)) ==>
      visited + HeaderRows(sheet, row + 1) == HeaderRows(sheet, 1)
  {
    if IsHeader(Cell(sheet, 'A', row)) {
      assert HeaderRows(sheet, row) == [row] + HeaderRows(sheet, row + HeaderSkip);
    }
  }

  /** A block's header record, filled in from the table two rows below it. */
  method ReadBlock(sheet: Sheet, row: int) returns (block: Trigger)
    requires IsHeader(Cell(sheet, 'A', row))
    ensures block == BlockTrigger(sheet, row)
  {
    block := HeaderTrigger(Cell(sheet, 'A', row).s);
    block := ParseTriggerTable(sheet, row + 2, block);
  }

  /** One step of the scan at `row`: at a header, the open block is closed,
      the header's block is read and opened, and the scan resumes 10 rows
      later; at any other row it moves to the next row. */
  method ScanRow(sheet: Sheet, row: int, triggers: seq<Trigger>, current: Option<Trigger>, ghost visited: seq<int>)
    returns (nextRow: int, triggers': seq<Trigger>, current': Option<Trigger>, ghost visited': seq<int>)
    requires row <= sheet.maxRow
    requires visited + HeaderRows(sheet, row) == HeaderRows(sheet, 1)
    requires triggers + Opened(current) == Blocks(sheet, visited)
    ensures row < nextRow
    ensures visited' + HeaderRows(sheet, nextRow) == HeaderRows(sheet, 1)
    ensures triggers' + Opened(current') == Blocks(sheet, visited')
  {
    ScanStep(sheet, row, visited);
    if IsHeader(Cell(sheet, 'A', row)) {
      triggers' := triggers + Opened(current);
      var block := ReadBlock(sheet, row);
      BlockStep(sheet, visited, row, triggers', block);
      visited' := visited + [row];
      current' := Some(block);
      nextRow := row + HeaderSkip;
    } else {
      triggers', current', visited' := triggers, current, visited;
      nextRow := row + 1;
    }
  }

  /** `_parse_trigger_sheet`: scans column A from row 1, opening a block at
      each header and skipping the 10 rows that start there; the block still
      open at the end is appended too. */
  method ParseTriggerSheet(sheet: Sheet) returns (triggers: seq<Trigger>)
    ensures triggers == ParseSheet(sheet)
  {
    triggers := [];
    var current: Option<Trigger> := None;
    var row := 1;
    ghost var visited: seq<int> := [];
    while row <= sheet.maxRow
      invariant visited + HeaderRows(sheet, row) == HeaderRows(sheet, 1)
      invariant triggers + Opened(current) == Blocks(sheet, visited)
      decreases Remaining(sheet, row)
    {
      row, triggers, current, visited := ScanRow(sheet, row, triggers, current, visited);
    }
    assert visited + [] == visited;
    triggers := triggers + Opened(current);
  }

  /** Increasing rows, each at least 10 after the one before. */
  predicate Spaced(rows: seq<int>) {
    forall i, j :: 0 <= i < j < |rows| ==> rows[i] + HeaderSkip <= rows[j]
  }

  /** The rows the scan stops at are at least 10 rows apart. */
  lemma {:induction false} HeaderRowsSpaced(sheet: Sheet, row: int)
    ensures Spaced(HeaderRows(sheet, row))
    decreases Remaining(sheet, row)
  {
    var rows := HeaderRows(sheet, row);
    if row <= sheet.maxRow {
      if IsHeader(Cell(sheet, 'A', row)) {
        var rest := HeaderRows(sheet, row + HeaderSkip);
        HeaderRowsSpaced(sheet, row + HeaderSkip);
        assert rows == [row] + rest;
        forall i, j | 0 <= i < j < |rows| ensures rows[i] + HeaderSkip <= rows[j] {
          assert rows[j] == rest[j - 1];
          if i > 0 {
            assert rows[i] == rest[i - 1];
            assert rest[i - 1] + HeaderSkip <= rest[j - 1];
          } else {
            assert row + HeaderSkip <= rest[j - 1];
          }
        }
      } else {
        assert rows == HeaderRows(sheet, row + 1);
        HeaderRowsSpaced(sheet, row + 1);
      }
    }
  }

  /** A header the scan does not stop at lies in the 9 rows after one it
      stops at. */
  lemma {:induction false} SkippedHeaders(sheet: Sheet, row: int, r: int)
    requires row <= r <= sheet.maxRow && IsHeader(Cell(sheet, 'A', r))
    requires r !in HeaderRows(sheet, row)
    ensures exists i :: 0 <= i < |HeaderRows(sheet, row)|
              && HeaderRows(sheet, row)[i] < r < HeaderRows(sheet, row)[i] + HeaderSkip
    decreases Remaining(sheet, row)
  {
    var rows := HeaderRows(sheet, row);
    if IsHeader(Cell(sheet, 'A', row)) {
      var rest := HeaderRows(sheet, row + HeaderSkip);
      assert rows == [row] + rest;
      if r < row + HeaderSkip {
        assert rows[0] < r < rows[0] + HeaderSkip;
      } else {
        assert r !in rest;
        SkippedHeaders(sheet, row + HeaderSkip, r);
        var i :| 0 <= i < |rest| && rest[i] < r < rest[i] + HeaderSkip;
        assert rows[i + 1] == rest[i];
      }
    } else {
      assert rows == HeaderRows(sheet, row + 1);
      SkippedHeaders(sheet, row + 1, r);
    }
  }

  /** Every parsed record is a header's id and name with its table applied;
      its fields are all text except a converted value. */
  lemma ParsedFieldsAreText(sheet: Sheet, k: nat)
    requires k < |ParseSheet(sheet)|
    ensures var t := ParseSheet(sheet)[k];
      && t.jamaId.Some? && t.jamaId.value.VStr?
      && t.requirementName.Some? && t.requirementName.value.VStr?
      && t.signalName.Some? && t.signalName.value.VStr?
      && t.actionType.Some? && t.actionType.value.VStr?
      && t.remarks.Some? && t.remarks.value.VStr?
      && t.value.Some? && t.target.None?
  {
    var row := HeaderRows(sheet, 1)[k];
    BlocksAt(sheet, HeaderRows(sheet, 1), k);
    var h := HeaderTrigger(Str(Cell(sheet, 'A', row)));
    var es := TableEntries(sheet, row + 2);
    FillTableLastLabelWins(h, es);
  }

  // ---------------------------------------------------------------------------
  // validate_trigger

  /** The action types that are known; any other type is only logged. */
  const ValidActionTypes: seq<string> := [
    "can_communication_error", "brake", "accelerator", "steering",
    "sensor_fault", "powertrain_fault", "environmental_fault", "shift",
    "appcssw", "sw_turn_signal", "engine_startup_operation",
    "MM_display_touched_coord"]

  const SignalMissing := ": 信号名が未設定"
  const ValueMissing := ": 値が未設定"
  const ActionTypeMissing := ": アクションタイプが未設定"

  /** `validate_trigger` raises TypeError when a truthy unknown action type
      is not a string (`valid in action_type`). */
  datatype ValidateError = ActionTypeNotText

  /** `f"JAMA_ID {jama_id}{what}"`, "UNKNOWN" for a missing id. */
  function Message(t: Trigger, what: string): (r: string)
    ensures |r| >= 8 + |what| && r[..8] == "JAMA_ID " && r[|r| - |what|..] == what
    ensures t.jamaId.None? ==> r[8..|r| - |what|] == "UNKNOWN"
  {
    "JAMA_ID " + Str(t.jamaId.GetOr(VStr("UNKNOWN"))) + what
  }

  /** `validate_trigger`: one message per missing required field. */
  function ValidateTrigger(t: Trigger): (r: Result<seq<string>, ValidateError>)
    ensures r.Err? <==>
      var action := t.actionType.GetOr(VStr(""));
      Truthy(action) && !action.VStr?
    ensures r.Ok? ==> |r.value| <= 3
    ensures r.Ok? ==> (Message(t, SignalMissing) in r.value <==> !Truthy(t.signalName.GetOr(VNone)))
    ensures r.Ok? ==> (Message(t, ValueMissing) in r.value <==> t.value == Some(VStr("")))
    ensures r.Ok? ==> (Message(t, ActionTypeMissing) in r.value <==> !Truthy(t.actionType.GetOr(VNone)))
    ensures r.Ok? ==> forall m :: m in r.value ==>
      m in {Message(t, SignalMissing), Message(t, ValueMissing), Message(t, ActionTypeMissing)}
    ensures r.Ok? ==> (
      |r.value| == (if !Truthy(t.signalName.GetOr(VNone)) then 1 else 0)
                 + (if t.value == Some(VStr("")) then 1 else 0)
                 + (if !Truthy(t.actionType.GetOr(VNone)) then 1 else 0))
    ensures r.Ok? ==>
      IsSubsequence(r.value, [Message(t, SignalMissing), Message(t, ValueMissing), Message(t, ActionTypeMissing)])
  {
    var prefix := "JAMA_ID " + Str(t.jamaId.GetOr(VStr("UNKNOWN")));
    MessagesDiffer(prefix);
    var errors :=
      (if !Truthy(t.signalName.GetOr(VNone)) then [Message(t, SignalMissing)] else [])
      + (if t.value == Some(VStr("")) then [Message(t, ValueMissing)] else [])
      + (if !Truthy(t.actionType.GetOr(VNone)) then [Message(t, ActionTypeMissing)] else []);
    var s, v, a := Message(t, SignalMissing), Message(t, ValueMissing), Message(t, ActionTypeMissing);
    SubsequencePick(!Truthy(t.signalName.GetOr(VNone)), s);
    SubsequencePick(t.value == Some(VStr("")), v);
    SubsequencePick(!Truthy(t.actionType.GetOr(VNone)), a);
    SubsequenceAppend(if !Truthy(t.signalName.GetOr(VNone)) then [s] else [], [s],
                      if t.value == Some(VStr("")) then [v] else [], [v]);
    SubsequenceAppend((if !Truthy(t.signalName.GetOr(VNone)) then [s] else [])
                      + (if t.value == Some(VStr("")) then [v] else []), [s] + [v],
                      if !Truthy(t.actionType.GetOr(VNone)) then [a] else [], [a]);
    assert [s] + [v] + [a] == [s, v, a];
    var action := t.actionType.GetOr(VStr(""));
    if Truthy(action) && action !in seq(|ValidActionTypes|, i requires 0 <= i < |ValidActionTypes| => VStr(ValidActionTypes[i]))
       && !action.VStr? then
      Err(ActionTypeNotText)
    else Ok(errors)
  }

  lemma MessagesDiffer(prefix: string)
    ensures prefix + SignalMissing != prefix + ValueMissing
    ensures prefix + SignalMissing != prefix + ActionTypeMissing
    ensures prefix + ValueMissing != prefix + ActionTypeMissing
  {
    assert (prefix + SignalMissing)[|prefix| + 2] != (prefix + ValueMissing)[|prefix| + 2];
    assert (prefix + SignalMissing)[|prefix| + 2] != (prefix + ActionTypeMissing)[|prefix| + 2];
    assert (prefix + ValueMissing)[|prefix| + 2] != (prefix + ActionTypeMissing)[|prefix| + 2];
  }

  /** A record read from the sheet is always checked without raising, and
      its table's signal name and action type decide the messages. */
  lemma ParsedTriggerValidates(sheet: Sheet, k: nat)
    requires k < |ParseSheet(sheet)|
    ensures ValidateTrigger(ParseSheet(sheet)[k]).Ok?
  {
    ParsedFieldsAreText(sheet, k);
  }

  // ---------------------------------------------------------------------------
  // The hierarchy filter of parse_requirement_hierarchy

  /** A `Requirement_of_Driver` row is selected: its sequence (column C)
      starts with the prefix and it has a JAMA id (column A). */
  predicate Selected(sheet: Sheet, prefix: string, row: int) {
    var sequence := Cell(sheet, 'C', row);
    Truthy(sequence) && StartsWith(Str(sequence), prefix) && Truthy(Cell(sheet, 'A', row))
  }

  /** The ids of the selected rows among 2 .. `last`, in row order. */
  function IdsUpTo(sheet: Sheet, prefix: string, last: int): seq<string>
    decreases if last >= 2 then last else 0
  {
    if last < 2 then []
    else IdsUpTo(sheet, prefix, last - 1) + (if Selected(sheet, prefix, last) then [Str(Cell(sheet, 'A', last))] else [])
  }

  /** `trigger_jama_ids` */
  function HierarchyIds(sheet: Sheet, prefix: string): seq<string> {
    IdsUpTo(sheet, prefix, sheet.maxRow)
  }

  /** An id is collected exactly when some selected row carries it. */
  lemma {:induction false} IdsUpToMembers(sheet: Sheet, prefix: string, last: int, id: string)
    ensures id in IdsUpTo(sheet, prefix, last)
        <==> exists row :: 2 <= row <= last && Selected(sheet, prefix, row) && Str(Cell(sheet, 'A', row)) == id
    decreases if last >= 2 then last else 0
  {
    if last >= 2 {
      IdsUpToMembers(sheet, prefix, last - 1, id);
      if exists row :: 2 <= row <= last && Selected(sheet, prefix, row) && Str(Cell(sheet, 'A', row)) == id {
        var row :| 2 <= row <= last && Selected(sheet, prefix, row) && Str(Cell(sheet, 'A', row)) == id;
        if row < last {
          assert exists row' :: 2 <= row' <= last - 1 && Selected(sheet, prefix, row') && Str(Cell(sheet, 'A', row')) == id;
        }
      }
    }
  }

  /** `trigger.get("jama_id") in trigger_jama_ids` */
  predicate InIds(t: Trigger, ids: seq<string>) {
    t.jamaId.Some? && t.jamaId.value.VStr? && t.jamaId.value.s in ids
  }

  /** The list comprehension of `parse_requirement_hierarchy`. */
  function FilterTriggers(triggers: seq<Trigger>, ids: seq<string>): (r: seq<Trigger>)
    ensures forall t :: t in r <==> t in triggers && InIds(t, ids)
    decreases |triggers|
  {
    if triggers == [] then []
    else
      var last := triggers[|triggers| - 1];
      FilterTriggers(triggers[..|triggers| - 1], ids) + (if InIds(last, ids) then [last] else [])
  }

  /** The filter keeps the triggers' order. */
  lemma {:induction false} FilterIsSubsequence(triggers: seq<Trigger>, ids: seq<string>)
    ensures IsSubsequence(FilterTriggers(triggers, ids), triggers)
    decreases |triggers|
  {
    if triggers != [] {
      var init := triggers[..|triggers| - 1];
      FilterIsSubsequence(init, ids);
      var r := FilterTriggers(triggers, ids);
      var last := triggers[|triggers| - 1];
      if InIds(last, ids) {
        assert r == FilterTriggers(init, ids) + [last];
        assert r[..|r| - 1] == FilterTriggers(init, ids);
        assert r[|r| - 1] == last;
      } else {
        assert r == FilterTriggers(init, ids);
      }
    }
  }

  /** Some selected requirement row carries the id. */
  predicate UnderPrefix(requirements: Sheet, prefix: string, id: string) {
    exists row :: 2 <= row <= requirements.maxRow && Selected(requirements, prefix, row)
      && Str(Cell(requirements, 'A', row)) == id
  }

  /** `parse_requirement_hierarchy`: the triggers of the sheet whose JAMA id
      belongs to a requirement under the prefix; a missing worksheet gives
      no triggers. */
  function HierarchyTriggers(requirements: Option<Sheet>, triggerSheet: Option<Sheet>, prefix: string): (r: seq<Trigger>)
    ensures requirements.None? || triggerSheet.None? ==> r == []
    ensures triggerSheet.Some? ==> IsSubsequence(r, ParseSheet(triggerSheet.value))
  {
    match (requirements, triggerSheet)
    case (Some(req), Some(trig)) =>
      FilterIsSubsequence(ParseSheet(trig), HierarchyIds(req, prefix));
      FilterTriggers(ParseSheet(trig), HierarchyIds(req, prefix))
    case (None, Some(trig)) =>
      assert IsSubsequence([], ParseSheet(trig)) by { EmptySubsequence(ParseSheet(trig)); }
      []
    case _ => []
  }

  /** The triggers kept are exactly the sheet's triggers whose id is under
      the prefix. */
  lemma HierarchyTriggersMembers(requirements: Sheet, triggerSheet: Sheet, prefix: string, t: Trigger)
    ensures t in HierarchyTriggers(Some(requirements), Some(triggerSheet), prefix)
        <==> t in ParseSheet(triggerSheet) && t.jamaId.Some? && t.jamaId.value.VStr?
             && UnderPrefix(requirements, prefix, t.jamaId.value.s)
  {
    if t.jamaId.Some? && t.jamaId.value.VStr? {
      IdsUpToMembers(requirements, prefix, requirements.maxRow, t.jamaId.value.s);
    }
  }
}
