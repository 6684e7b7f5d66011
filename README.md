# Fault-injection scenario generator, modelled in Dafny

The system generates abnormal-case driving test scenarios. A base scenario
is a JSON document. Its `story` holds one entry per actor, and each entry
holds a numbered list of events. An event may wait, through its
`start_trigger`, for another event (by number) to complete. Fault triggers
are read from the `Trigger_edit` worksheet of a requirements workbook. For
every trigger and every injection point of the scenario configuration, the
generator:

- copies the base scenario;
- inserts a fault event into the ego actor's list after a given event;
- renumbers the events that follow;
- shifts the event-number references in the start triggers;
- rewrites the test-procedure order;
- stamps a summary and a variation on the result.

A validator checks that event numbers run 1, 2, 3, … and that every
reference names an existing event. Around that core, the model also covers:

- the requirement workbook readers;
- the HTML table parser, the table preview and the table serialiser of the
  Excel handler;
- the component filter, depth filter, paging and field preparation of the
  Jama client.

Modules:

| module | file | contents |
|---|---|---|
| `Wrappers`, `Text`, `PyValues`, `Sequences` | `wrappers.dfy`, `text.dfy`, `values.dfy`, `sequences.dfy` | `Option`/`Result`; Python string operations (`strip`, `split`, `join`, `int()` on text); dynamic JSON values with Python truthiness; subsequences and concatenation. |
| `ScenarioDocument` | `scenario_document.dfy` | The scenario, actor, event, trigger, condition and parameter records. A key the code probes with `in` or `.get` is an `Option`. |
| `EventReferences` | `event_references.dfy` | The reference shift of `_update_trigger_references` and the reference extraction of `_extract_referenced_events`, each as a function plus the loop method that computes it. |
| `Validator` | `validator.dfy` | `validate_scenario`: loop methods proved equal to violation-list functions; emptiness of each list proved equivalent to "contiguous" and "every reference resolves". |
| `FaultInjector` | `fault_injector.dfy` | `inject_fault_event` and its helpers. The ego event list is a class `EventList` whose methods update it in place. The specification function `InjectionResult` is what `InjectFaultEvent` is proved to compute. |
| `InjectionProperties` | `injection_properties.dfy` | What an injection does: exactly when it succeeds, the shape of the new list, that validity is preserved, and the test script's example. |
| `Generator` | `generator.dfy` | `generate_scenarios` and `_generate_single_scenario`, with the count of outputs against the report's expected count. |
| `RequirementParser` | `requirement_parser.dfy` | The `Trigger_edit` scan, the key/value table, `validate_trigger` and `parse_requirement_hierarchy`. |
| `HtmlTable` | `html_table.dfy` | `HTMLTableParser` as a class over shared row and table objects, and `_extract_table_preview`. |
| `HtmlSerialiser` | `html_serialiser.dfy` | `_convert_to_html_table`. |
| `JamaItems`, `Hierarchy`, `JamaFilter` | `jama_items.dfy`, `hierarchy.dfy`, `jama_filter.dfy` | Items as sequence and name; `_parse_hierarchy`; `get_items_by_component`, `get_all_items` paging and depth filter, and `_prepare_fields`. |

Points of the code's behaviour that the model follows as written:

- **References are rewritten in the ego list only.** The code shifts event
  references only inside the ego actor's events (`_update_event_references`
  is called on that list). It does not shift them in every actor.
- **A reference to the anchor event is not shifted.** The threshold is the
  new event's number (`after_event_no + 1`). A reference to the anchor event
  itself therefore keeps its value. In the shipped test script
  (`test_scenario_generation.py:112-115`), the moved event 4 waits on
  event 2, and the script expects 3. The model follows the code:
  `InjectionProperties.TestScriptExample` proves that the reference stays 2.
- **Renumbering is by position.** The events after the inserted one get
  `after_event_no + 2`, `after_event_no + 3`, … in list order, whatever
  their old numbers were (`InjectionProperties.RenumberIsByPosition`).

## Model

| member | source | states |
|---|---|---|
| PyValues.AsInt | scenario/fault_injector.py:262 | Python's `isinstance(v, int)` accepts exactly ints and bools; an int reads as itself. |
| Text.Strip | scenario/requirement_parser.py:85 | `str.strip()`: the result has no leading or trailing whitespace, is no longer than the input, and is the input when that is already stripped. |
| Text.Split | excel_handler.py:314 | `str.split(sep)`: at least one part, and no part contains the separator. |
| Text.JoinSplit | excel_handler.py:316 | Joining the parts of a split with the same separator gives the text back. |
| Text.SplitJoin | excel_handler.py:349 | Splitting a join of separator-free parts gives the parts back. |
| Text.ParseIntToString | scenario/requirement_parser.py:145-147 | `int()` applied to the decimal text of an integer gives that integer. |
| Text.IndexOf | scenario/requirement_parser.py:83-85 | The position of the first occurrence of a character, or none exactly when it does not occur. |
| Text.RemoveChar | scenario/requirement_parser.py:84 | `replace(c, "")`: the character no longer occurs, and text without it is unchanged. |
| EventReferences.ShiftedParam | scenario/fault_injector.py:259-263 | A parameter changes exactly when it is named `event_no` and holds an int at or above the threshold; its value then becomes that int plus one, and its name, unit and rule are kept. |
| EventReferences.UpdateTriggerReferences | scenario/fault_injector.py:240-264 | The nested loops over condition groups, conditions and parameters compute the shifted trigger, with every group and condition kept in place. |
| EventReferences.ExtractReferencedEvents | scenario/fault_injector.py:313-337 | The loops collect, in document order, the int values of the `event_no` parameters of `event_state` conditions. |
| EventReferences.CollectParamRefs | scenario/fault_injector.py:331-335 | The innermost loop collects the int `event_no` values of one condition's parameters, in order. |
| EventReferences.CollectConditionsRefs | scenario/fault_injector.py:328-335 | The loop over a group's conditions collects the references of its `event_state` conditions, in order. |
| EventReferences.ParamRef | scenario/fault_injector.py:332-335 | A parameter contributes at most one reference. |
| EventReferences.EventRefsShifted | scenario/fault_injector.py:233-236 | For a positive threshold, the references extracted from a shifted event are the old references, each shifted by one when at or above the threshold (the rewrite and the extraction agree). |
| EventReferences.ParamRefsShifted | scenario/fault_injector.py:258-263 | The same agreement over one condition's parameters. |
| EventReferences.ConditionsRefsShifted | scenario/fault_injector.py:255-263 | The same agreement over a group's conditions, of which only `event_state` ones are rewritten or read. |
| EventReferences.GroupsRefsShifted | scenario/fault_injector.py:251-263 | The same agreement over a list of condition groups. |
| EventReferences.ShiftedEventKeepsFields | scenario/fault_injector.py:235-236 | The shift changes nothing but the start trigger, and keeps whether there is one. |
| Validator.CheckContiguity | scenario/fault_injector.py:291-296 | The loop reports, in order, one discontinuity (expected number, actual value) per event whose `no` is not its 1-based position. |
| Validator.ContiguityViolationsEmpty | scenario/fault_injector.py:288-296 | No discontinuity is reported exactly when every event is numbered by its position. |
| Validator.ContiguityViolationsAt | scenario/fault_injector.py:294-295 | A discontinuity (n, actual) is reported exactly when event n exists, is not numbered n, and carries `actual`. |
| Validator.InNumbersOf | scenario/fault_injector.py:302-308 | Membership in the set of event numbers, with Python's `True == 1` and `False == 0`, is "some event carries number n". |
| Validator.CheckEventRefs | scenario/fault_injector.py:307-309 | One event's references: a dangling-reference report for each reference that is neither 0 nor an event number. |
| Validator.CheckReferences | scenario/fault_injector.py:301-309 | The loop over one actor's events computes its reference violations. |
| Validator.RefsDanglingEmpty | scenario/fault_injector.py:307-309 | One event reports nothing exactly when each of its references is 0 or an existing number. |
| Validator.ReferenceViolationsEmpty | scenario/fault_injector.py:298-309 | No dangling reference is reported exactly when every reference of every event is 0 or the number of some event. |
| Validator.ContiguousHasNo | scenario/fault_injector.py:302 | In a contiguous list, number n exists exactly when 1 <= n <= length. |
| Validator.CheckAllContiguity | scenario/fault_injector.py:289-296 | The loop over actors concatenates each actor's discontinuities, in actor order. |
| Validator.CheckAllReferences | scenario/fault_injector.py:299-309 | The loop over actors concatenates each actor's dangling references, in actor order. |
| Validator.AllContiguityEmpty | scenario/fault_injector.py:288-296 | No discontinuity in any actor exactly when every actor's events are contiguous. |
| Validator.AllDanglingEmpty | scenario/fault_injector.py:298-309 | No dangling reference in any actor exactly when all of every actor's references resolve. |
| Validator.ValidateScenario | scenario/fault_injector.py:276-311 | All contiguity errors of all actors followed by all dangling references of all actors, and nothing without a `story`. |
| Validator.ScenarioViolationsEmpty | scenario/fault_injector.py:276-311 | A scenario validates clean exactly when it has no story, or every actor's events are contiguous and all their references resolve. |
| FaultInjector.EgoIndex | scenario/fault_injector.py:38-45 | The first actor named `ego`, or none exactly when no actor is. |
| FaultInjector.AnchorIndex | scenario/fault_injector.py:93-96 | The first event whose `no` equals the anchor number, or none exactly when no event has it. |
| FaultInjector.FindInsertPosition | scenario/fault_injector.py:82-96 | Returns -1 exactly when no event carries the number, else the index after the first event that does. |
| FaultInjector.ShapingKey | scenario/fault_injector.py:177 | The action type that shapes the parameters: "" when absent; undefined (the containment test raises) exactly when it is present but not text. |
| FaultInjector.ActionParams | scenario/fault_injector.py:159-206 | One or two parameters. Except for steering, the first is `value` holding `str(value)` or "1", and a second exists only as the communication-error `target`. Steering gets the rudder angle (default 45 deg) and a 1 s steering time. |
| FaultInjector.BrakeParams | scenario/fault_injector.py:186-189 | For `brake` the only parameter is the value in `%`. |
| FaultInjector.AfterEventTrigger | scenario/fault_injector.py:120-145 | One group with one `event_state` condition carrying the delay. |
| FaultInjector.AfterEventTriggerRefs | scenario/fault_injector.py:126-132 | The fault event's trigger references exactly the anchor event. |
| FaultInjector.AfterEventTriggerNotShifted | scenario/fault_injector.py:259-263 | The later reference shift leaves the new trigger alone, since the anchor is below the threshold. |
| FaultInjector.FaultEvent | scenario/fault_injector.py:98-208 | Fails exactly when the action type is not text. Otherwise: number and order the new number; the after-event trigger; the action type or `can_communication_error`; the action parameters; and the remark naming the signal or `UNKNOWN`. |
| FaultInjector.FirstMissingNo | scenario/fault_injector.py:219-220 | The first event from an index on without a `no` key (the `KeyError` of the renumber loop), or none exactly when all have one. |
| FaultInjector.EventList.Insert | scenario/fault_injector.py:67 | `list.insert`: the event goes before the index, clamped to the end. |
| FaultInjector.EventList.RenumberEvents | scenario/fault_injector.py:210-223 | Succeeds exactly when no later event lacks `no`. On success, the events from the start index are renumbered by position. On failure, those before the missing key are already renumbered and the rest are unchanged. |
| FaultInjector.EventList.UpdateEventReferences | scenario/fault_injector.py:225-236 | Every event's start trigger is shifted, in place. |
| FaultInjector.EventList.UpdateTestProcedureOrder | scenario/fault_injector.py:266-274 | Every event's order becomes its 1-based position. |
| FaultInjector.Injected | scenario/fault_injector.py:67-76 | The injected list is one longer. |
| FaultInjector.FindEgo | scenario/fault_injector.py:38-45 | The loop finds the first ego actor, -1 exactly when there is none. |
| FaultInjector.EditEgoEvents | scenario/fault_injector.py:67-76 | Insert, renumber, shift and reorder on an `EventList` fail exactly on a missing `no`, and otherwise give the injected list. |
| FaultInjector.SpliceEgoEvents | scenario/fault_injector.py:47-76 | The ego-list part of the injection computes its specification, including the empty-list, anchor-not-found and non-text-action errors. |
| FaultInjector.InjectFaultEvent | scenario/fault_injector.py:16-80 | The whole injection on a copy of the scenario computes `InjectionResult`, including the missing-story and missing-ego errors. |
| InjectionProperties.EgoEvents | scenario/fault_injector.py:38-47 | The ego actor's events exist exactly when there is a story with an ego actor. |
| InjectionProperties.EgoIndexKept | scenario/fault_injector.py:38-67 | Editing the ego actor's events keeps it the first ego actor. |
| InjectionProperties.InjectedAt | scenario/fault_injector.py:67-76 | Position by position: events before the insertion keep their number; the fault event keeps its own; later events are numbered after the anchor by position; the order is the position. References are shifted from the new number on, and nothing else changes. |
| InjectionProperties.InjectedNumbers | scenario/fault_injector.py:67-70 | The numbers of the injected list, before, at and after the insertion point. |
| InjectionProperties.InjectedOrder | scenario/fault_injector.py:266-274 | Every event's test-procedure order is its 1-based position. |
| InjectionProperties.InjectedReferences | scenario/fault_injector.py:73 | Each original event reappears one place later past the insertion point, and the fault event sits at the insertion point; each has all its fields kept and its references shifted from the new number on. |
| InjectionProperties.ContiguousAnchor | scenario/fault_injector.py:93-96 | In a contiguous list, event `after` is found at index after-1. |
| InjectionProperties.ContiguousRenumberIsSuccessor | scenario/fault_injector.py:70 | In a contiguous list, every event after the anchor moves from number i+1 to i+2. |
| InjectionProperties.RenumberIsByPosition | scenario/fault_injector.py:219-222 | Renumbering ignores old numbers: an event numbered 5 after the insertion becomes 3. |
| InjectionProperties.InjectedContiguous | scenario/fault_injector.py:67-76 | Injecting after event `after` into a contiguous list keeps it contiguous. |
| InjectionProperties.ShiftedRefsResolve | scenario/fault_injector.py:298-309 | References that resolved before the injection resolve after the shift. |
| InjectionProperties.InjectedRefsResolve | scenario/fault_injector.py:67-76 | If every reference resolved before, every reference of the injected list resolves. |
| InjectionProperties.InjectedValid | scenario/fault_injector.py:276-311 | Both validator checks report nothing on the injected ego list of a valid list. |
| InjectionProperties.InjectedFaultEvent | scenario/fault_injector.py:67-76 | The inserted event is the fault event with its order set to its position. |
| InjectionProperties.FaultEventRefs | scenario/fault_injector.py:120-145 | A created fault event references exactly the anchor. |
| InjectionProperties.MissingNoAfterSplice | scenario/fault_injector.py:219-220 | The renumber loop hits a missing `no` exactly when some event after the anchor lacks one. |
| InjectionProperties.EgoSpliceSucceeds | scenario/fault_injector.py:47-76 | The ego-list edit succeeds exactly when the anchor is found, the action type is usable, and every later event has a `no`. |
| InjectionProperties.EgoSpliceValue | scenario/fault_injector.py:52-76 | A successful edit is the fault event spliced in after the anchor, then renumbered, shifted and reordered. |
| InjectionProperties.InjectionEgoEvents | scenario/fault_injector.py:31-76 | A successful injection's ego events are the edited ego events of the input. |
| InjectionProperties.InjectionIsEgoSplice | scenario/fault_injector.py:31-80 | An injection succeeds exactly when there is an ego list whose edit succeeds. It then keeps the summary, the variation, the actor count, every other actor, the ego's name and the ego's position. |
| InjectionProperties.InjectionSucceeds | scenario/fault_injector.py:34-70 | The injection succeeds exactly when: there is a story with an ego actor; the anchor number occurs; the action type is usable; and every event after the anchor has a `no`. |
| InjectionProperties.InjectionShape | scenario/fault_injector.py:16-80 | The ego events after a successful injection are the injected list. |
| InjectionProperties.InjectionInsertsFaultEvent | scenario/fault_injector.py:59-67 | The ego list grows by one and holds the fault event just after the anchor. |
| InjectionProperties.EgoSpliceKeepsValid | scenario/fault_injector.py:47-76 | On a contiguous, resolving list with 1 <= after <= length and a usable action type, the edit succeeds and validates clean. |
| InjectionProperties.InjectionKeepsEgoValid | scenario/fault_injector.py:16-80 | The same for a whole scenario: the injection succeeds and its ego list validates clean. |
| InjectionProperties.InjectionPreservesValidity | scenario/fault_injector.py:16-311 | A scenario that validates clean still does after an injection after an existing event. |
| InjectionProperties.WaitForRefs | test_scenario_generation.py:40-50 | The test script's start trigger references exactly the awaited event. |
| InjectionProperties.TestScriptSplice | test_scenario_generation.py:104-115 | On the script's three events, injecting after event 2 gives four events: the old third is numbered 4 and still references 2. |
| InjectionProperties.TestFaultEvent | test_scenario_generation.py:75-91 | The script's trigger gives fault event 3 of type `can_communication_error`, referencing event 2. |
| InjectionProperties.TestScriptSucceeds | test_scenario_generation.py:86-91 | The script's injection succeeds and yields the injected list. |
| InjectionProperties.TestScriptExample | test_scenario_generation.py:94-115 | Event 3 is the fault event of type `can_communication_error`; the old third event is number 4; its reference is 2. |
| Generator.ResolveDelay | scenario/generator.py:235-236 | The point's own delay, else the common default for that point, else 3.0. |
| Generator.ScenarioDir | scenario/generator.py:131 | The output directory is a child of the output root named `<date>_<base>`. |
| Generator.FileName | scenario/generator.py:145-164 | A file name starts with `<date>_<base>_`, ends with `_<point>.json`, and holds `UNKNOWN` for a missing signal name. |
| Generator.Summary | scenario/generator.py:247 | The summary starts with the base summary and `_`, and ends with `_<point>`; a missing base summary gives a leading `_`. |
| Generator.Variation | scenario/generator.py:248 | The variation is the point behind a four-character `異常系_` prefix. |
| Generator.SingleScenario | scenario/generator.py:212-250 | Succeeds exactly when the point gives an int `after_event` and the injection succeeds; the result has the injected story, the summary `<base>_<signal>_<point>` and the variation `異常系_<point>`. |
| Generator.CombinationOutput | scenario/generator.py:153-175 | A (trigger, point) pair produces a file exactly when its single scenario succeeds. |
| Generator.Outcomes | scenario/generator.py:147-175 | One outcome per injection point. |
| Generator.GenerateScenarios | scenario/generator.py:94-185 | The nested loops compute the generation: unknown scenario, missing `base_file` and unloadable base are errors; otherwise every success is output in trigger-major order and failures are skipped. |
| Generator.OutputsCount | scenario/generator.py:290-312 | Generated plus failed is triggers × points, the report's expected count. |
| Generator.PointOutputsMembers | scenario/generator.py:147-175 | A trigger's outputs are exactly the successes of its points. |
| Generator.OutputsFromCombinations | scenario/generator.py:144-175 | Every output comes from some (trigger, point) pair. |
| Generator.CombinationsInOutputs | scenario/generator.py:144-175 | Every successful (trigger, point) pair is output. |
| Generator.UnknownScenarioFails | scenario/generator.py:114-115 | Generation fails with the unknown-scenario error exactly when the name is not configured. |
| Generator.GenerationBound | scenario/generator.py:294 | Never more files than triggers × points. |
| Generator.GeneratedScenarioValid | scenario/generator.py:212-250 | From a clean base, a point whose `after_event` names an existing ego event with a usable trigger yields a clean scenario. |
| RequirementParser.SplitHeader | scenario/requirement_parser.py:83 | `split("】", 1)`: the text before the first bracket and the rest, rejoining to the input; the whole text and "" without a bracket. |
| RequirementParser.HeaderId | scenario/requirement_parser.py:84 | The id has no opening bracket and is stripped. |
| RequirementParser.HeaderName | scenario/requirement_parser.py:85 | The requirement name is stripped. |
| RequirementParser.HeaderRoundTrip | scenario/requirement_parser.py:74-85 | A header built from an id and a name is recognised and reads back as that id and that name. |
| RequirementParser.HeaderTrigger | scenario/requirement_parser.py:90-97 | A new record holds the header's id and name, empty signal, value, action type and remarks, and no target. |
| RequirementParser.Entry | scenario/requirement_parser.py:130-139 | A table row yields an entry exactly when its key cell is non-empty. |
| RequirementParser.ConvertValue | scenario/requirement_parser.py:145-151 | The converted value is an int, a float or text. |
| RequirementParser.ConvertValueCases | scenario/requirement_parser.py:145-151 | A value is an int exactly when its text is integer text; otherwise a float exactly when it is float text; otherwise the text itself. |
| RequirementParser.ConvertIntText | scenario/requirement_parser.py:145-147 | Integer text converts to that integer. |
| RequirementParser.TableEntries | scenario/requirement_parser.py:130 | The table is read from exactly five rows. |
| RequirementParser.ParseTriggerTable | scenario/requirement_parser.py:114-155 | The loop over the five rows fills the record from the rows in order. |
| RequirementParser.FillTableLastLabelWins | scenario/requirement_parser.py:141-155 | Only the four labelled fields change, each to the value of the last row with its label; the value field is converted. |
| RequirementParser.HeaderRows | scenario/requirement_parser.py:70-106 | The rows the scan treats as headers are in range and hold header cells. |
| RequirementParser.ParseSheet | scenario/requirement_parser.py:54-112 | One record per header the scan stops at. |
| RequirementParser.BlocksAt | scenario/requirement_parser.py:78-110 | The i-th record is the block under the i-th header. |
| RequirementParser.ScanRow | scenario/requirement_parser.py:72-106 | One step of the scan advances the row, keeps the visited headers a prefix of all headers, and keeps the closed records plus the open one equal to the blocks seen so far. |
| RequirementParser.ReadBlock | scenario/requirement_parser.py:83-100 | A header row gives the record of its header, filled from the table two rows below. |
| RequirementParser.ParseTriggerSheet | scenario/requirement_parser.py:54-112 | The scan with its open record computes the list of blocks. |
| RequirementParser.HeaderRowsSpaced | scenario/requirement_parser.py:103 | Accepted headers are at least 10 rows apart. |
| RequirementParser.SkippedHeaders | scenario/requirement_parser.py:103 | A header cell that is not read as a header lies within the 10 rows after an accepted one. |
| RequirementParser.ParsedFieldsAreText | scenario/requirement_parser.py:90-155 | Every parsed record has text id, name, signal, action type and remarks, a value, and no target. |
| RequirementParser.ValidateTrigger | scenario/requirement_parser.py:207-251 | Fails exactly when the action type is truthy and not text (the containment test raises). Otherwise: the signal message iff the signal is falsy; the value message iff the value is ""; the action-type message iff the action type is falsy; nothing else. Each appears at most once (the count is the number of failed checks), in the order signal, value, action type. |
| RequirementParser.Message | scenario/requirement_parser.py:220-227 | A message is `JAMA_ID `, then the id (`UNKNOWN` when the key is missing), then the message's own text. |
| RequirementParser.MessagesDiffer | scenario/requirement_parser.py:220-227 | The three messages are distinct. |
| RequirementParser.ParsedTriggerValidates | scenario/requirement_parser.py:207-251 | `validate_trigger` never fails on a parsed record. |
| RequirementParser.IdsUpToMembers | scenario/requirement_parser.py:183-189 | An id is collected exactly when some row from 2 on has a truthy sequence starting with the prefix and that id in column A. |
| RequirementParser.FilterTriggers | scenario/requirement_parser.py:195-198 | Keeps exactly the records whose `jama_id` is a collected id. |
| RequirementParser.FilterIsSubsequence | scenario/requirement_parser.py:195-198 | The kept records are in their original order. |
| RequirementParser.HierarchyTriggers | scenario/requirement_parser.py:159-205 | Nothing without either sheet; otherwise a subsequence of the parsed triggers. |
| RequirementParser.HierarchyTriggersMembers | scenario/requirement_parser.py:159-205 | A record is returned exactly when it was parsed and its id belongs to a requirement under the prefix. |
| HtmlTable.HTMLTableParser.constructor | excel_handler.py:22-30 | Starts with no tables, an empty current table, row and cell, and all flags off. |
| HtmlTable.HTMLTableParser.HandleStartTag | excel_handler.py:32-41 | `table` opens a fresh current table. `tr` inside a table opens a fresh row. `td`/`th` inside a row opens an empty cell. Other tags change nothing. |
| HtmlTable.HTMLTableParser.HandleEndTag | excel_handler.py:43-54 | `</table>` closes the table and stores it when non-empty. `</tr>` inside a row stores a non-empty row in the current table. `</td>` inside a cell appends its stripped text to the row. Other tags change nothing. |
| HtmlTable.HTMLTableParser.EndTable | excel_handler.py:44-47 | The table branch, storing the shared table object itself. |
| HtmlTable.HTMLTableParser.EndRow | excel_handler.py:48-51 | The row branch, appending the shared row object. |
| HtmlTable.HTMLTableParser.EndCell | excel_handler.py:52-54 | The cell branch, appending the stripped text. |
| HtmlTable.HTMLTableParser.HandleData | excel_handler.py:56-58 | Text is appended to the cell only inside a cell. |
| HtmlTable.HTMLTableParser.Feed | excel_handler.py:340 | Feeding events only appends to the stored tables, and at most one table per `</table>` event. |
| HtmlTable.RowsCells | excel_handler.py:344 | Reading a table's rows gives each row's current cells. |
| HtmlTable.PreviewLines | excel_handler.py:345-348 | At most three lines, one per leading row, each the row's first four cells joined by " \| ". |
| HtmlTable.TablePreview | excel_handler.py:344-349 | The preview of the first stored table. |
| HtmlTable.ExtractTablePreview | excel_handler.py:325-349 | An empty description gives "". Otherwise the result is None exactly when the parser collected no table, and else the preview of the first collected table. At most one table is collected per `</table>`; every collected table and row is non-empty and every cell stripped. |
| HtmlTable.PreviewReadsBack | excel_handler.py:345-349 | For cells without line breaks, splitting the preview at line breaks gives back its lines, min(3, rows) of them. |
| HtmlSerialiser.RowLayout | excel_handler.py:478-494 | Row 0 is cells 0-2 with colspan 84 on the third. Row 1 is cells 0, 1, 2, 66 and 76 with colspans 64, 10 and 5. Later rows are their first 81 cells. A row too short for its indexing fails. |
| HtmlSerialiser.RowCellsHtml | excel_handler.py:482-494 | The inner loop renders exactly a row's cells. |
| HtmlSerialiser.ConvertToHtmlTable | excel_handler.py:466-499 | The loop builds exactly the rendered table, or the error of the first short row. |
| HtmlSerialiser.LayoutsOfRows | excel_handler.py:478-494 | The table converts exactly when every row does. Then there is one layout per row. Otherwise the error names the first failing row. |
| HtmlSerialiser.ConvertFails | excel_handler.py:483-491 | Conversion fails exactly when row 0 has fewer than 3 cells or row 1 has fewer than 77, naming row 0 first. |
| HtmlSerialiser.CellText | excel_handler.py:483-494 | A cell renders as `<td>` (with a colspan when it has one), its text, `</td>` and a newline. |
| HtmlSerialiser.RowText | excel_handler.py:479-496 | A row renders as `<tr>`, newline, its cells, `</tr>`, newline. |
| HtmlSerialiser.OpenText | excel_handler.py:476 | The table opens with `<table border='1' cellpadding='5' cellspacing='0'>` and a newline. |
| HtmlSerialiser.RowsTagCount | excel_handler.py:478-496 | The rows contain one `tr` per row and one `td` per cell, and no `table` tag. |
| HtmlSerialiser.TableText | excel_handler.py:476-498 | The rendering starts with the table opening tag and ends with `</table>`. |
| HtmlSerialiser.ConvertedText | excel_handler.py:466-499 | A converted table starts with the opening tag and ends with `</table>`. |
| HtmlSerialiser.TableTags | excel_handler.py:476-498 | One `table` tag, one `tr` per row and one `td` per cell, as opening and as closing tags. |
| HtmlSerialiser.ConvertedTags | excel_handler.py:466-499 | A converted table has one table, one row per data row, and one cell per laid-out cell. |
| Hierarchy.FirstWithSequence | excel_handler.py:318-321 | The first item with the sequence, or none exactly when there is none. |
| Hierarchy.Levels | excel_handler.py:315-321 | One lookup per level of the sequence. |
| Hierarchy.FindName | excel_handler.py:318-321 | The inner loop finds the first matching item's name. |
| Hierarchy.ParseHierarchy | excel_handler.py:296-323 | The loops compute the hierarchy: the item's own name without a sequence, else the found names of the prefixes. |
| Hierarchy.HierarchyLength | excel_handler.py:314-321 | No more names than sequence levels. |
| Hierarchy.HierarchyMembers | excel_handler.py:314-321 | A name is in the hierarchy exactly when it is the first match of some prefix. |
| Hierarchy.HierarchyComplete | excel_handler.py:314-321 | When every prefix has an item, there is one name per level, in level order. |
| Hierarchy.PrefixesGrow | excel_handler.py:316 | Each prefix extends the previous one by a dot and a part, and the last prefix is the sequence. |
| Hierarchy.LastLevelResolved | excel_handler.py:314-321 | For an item in the list, the last name is that of the first item with its own sequence. |
| JamaItems.Parts | jama_client.py:227-228 | `split(".")` gives at least one part. |
| JamaFilter.FirstTarget | jama_client.py:215-221 | The first item matching the given sequence or name, or none exactly when none matches. |
| JamaFilter.IsBelow | jama_client.py:224-230 | An item is kept exactly when its sequence starts with the target's plus "." and, under a depth limit, is at most that many levels deeper. |
| JamaFilter.FilterItem | jama_client.py:210-232 | One loop step keeps the filter state: before the target nothing is kept; the target is kept first; afterwards, exactly the descendants are kept. |
| JamaFilter.FilterComponent | jama_client.py:205-234 | The loop computes the target followed by its descendants, or nothing without a target. |
| JamaFilter.NoTarget | jama_client.py:215-221 | Without a matching item the result is empty. |
| JamaFilter.DescendantsMembers | jama_client.py:224-232 | A later item is kept exactly when it lies in the subtree, and the kept items are in order. |
| JamaFilter.ComponentIsSubsequence | jama_client.py:205-234 | The result is a subsequence of all items. |
| JamaFilter.ComponentShape | jama_client.py:205-234 | The result is non-empty exactly when some item matches. It then starts with the first match, and the rest are exactly the later items in its subtree. |
| JamaFilter.Depth | jama_client.py:170 | The depth is 0 exactly for an empty sequence, and 1 for one without dots. |
| JamaFilter.KeepPage | jama_client.py:166-174 | The loop over a page processes, in order, the items within the depth limit. |
| JamaFilter.KeptMembers | jama_client.py:166-174 | A processed item comes from an item of the page within the depth limit, and never more than the page. |
| JamaFilter.KeptAll | jama_client.py:168 | Without a depth limit, every item is processed, in order. |
| JamaFilter.GetAllItems | jama_client.py:148-186 | The paging loop computes the collected items, requesting pages 50 apart until an empty page or the total is reached. |
| JamaFilter.CollectTerminates | jama_client.py:176-182 | When totals are bounded, enough pages always finish the collection. |
| JamaFilter.CollectMembers | jama_client.py:149-182 | Every collected item comes from an item, within the depth limit, of a requested page at a multiple of 50. |
| JamaFilter.Fields | jama_client.py:333-351 | A key is in the fields exactly when it is mapped and present with a non-None value, and it keeps that value. |
| JamaFilter.MappingIsIdentity | jama_client.py:336-345 | Every internal key maps to the same API key. |
| JamaFilter.PrepareFields | jama_client.py:347-351 | The loop over the mapping computes the fields. |
| JamaFilter.FieldsIdempotent | jama_client.py:333-351 | Preparing prepared fields again changes nothing. |

## Left out

- File and workbook I/O is not modelled: opening the workbook (a sheet is a
  value), loading the base scenario (`load` is a parameter), saving the
  JSON files and writing the generation report. `Generator.OutputsCount`
  states the report's counts.
- The clock and the output directory are parameters (`date`, `outDir`) of
  `Generator.GenerateScenarios`. Logging and console output are left out.
- The deep copy of the base scenario is implicit: Dafny datatypes are
  values, so the input scenario can never be changed.
- Python's `bool` is a subclass of `int`, so a boolean `no` or `event_no`
  counts as an int, as in the code. Floats are kept as their text.
  `RequirementParser.ConvertValue` accepts float text by a grammar that
  approximates Python's `float()`: underscores, `inf` and `nan` are covered;
  surrounding whitespace has already been stripped.
- An `after_event` that is not an int (missing, text, or a float) is
  reported by `Generator.SingleScenario` as a failed combination. For most
  such values the code fails the same way, because no event number compares
  equal. A float equal to an event number (2.0) would match in Python and
  produce float event numbers; the model does not follow that path.
- Float event numbers: Python compares `2.0 == 2` as equal in
  `_find_insert_position` (`scenario/fault_injector.py:94`), in the
  contiguity check (`scenario/fault_injector.py:294`) and in set membership
  (`scenario/fault_injector.py:302-308`). The model's `PyValues.EqualsInt`
  and `Validator.InNumbers` never match a float, so a timeline numbered with
  floats such as 2.0 is reported as not contiguous where Python accepts it.
- Text.IsDigit accepts ASCII and full-width digits only. Python's `int()`
  accepts every Unicode decimal digit (Arabic-Indic, Devanagari, …); text in
  those scripts converts to a number in Python and stays text in the model.
- `validate_trigger`'s unknown-action-type branch only logs. It is not
  modelled beyond its effect of failing on a non-text action type.
- The HTML tokeniser (`html.parser`) is not modelled. The parser is driven
  by a sequence of start-tag, end-tag and data events, and tag attributes
  are ignored as the code ignores them. The lists the parser shares between
  its current table and its stored tables are objects (`RowList`,
  `TableList`), so later appends to an already-stored list are seen.
- `_extract_table_preview`'s fallback after the table branch (a regular
  expression that strips tags) is not modelled:
  `HtmlTable.ExtractTablePreview` returns None when the description holds
  no table.
- HtmlTable.HTMLTableParser.Feed: the contract states that stored tables
  are kept, stay well-formed, and grow by at most one per `</table>`; the
  effect of each single event is stated by its handler's contract. The
  composed effect of a whole event sequence (which tables result, with
  which cells) is not stated as a function of the events.
- HtmlSerialiser.ConvertToHtmlTable: cells are text. The serialiser's
  properties are stated on the rendered tag events (tag counts), not on a
  re-parse of the HTML text.
- Jama items are modelled by their `sequence` and `name`.
  `_process_item` and the REST request are function parameters of
  `JamaFilter.GetAllItems`; HTTP errors and retries are not modelled.
- JamaFilter.GetAllItems: the paging loop carries a fuel bound and returns
  None when the bound is exhausted. `JamaFilter.CollectTerminates` shows
  that enough fuel to page past the largest reported total always suffices.
- A `max_depth` of 0 counts as "no limit", following Python truthiness.
  `None` values in `_prepare_fields` are `Option<V>`.
- Event-number references in `end_story` are not rewritten, as the code's
  comment at `scenario/fault_injector.py:238` says.
