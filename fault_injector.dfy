/** `FaultInjector.inject_fault_event`: splices a fault event into the event
    list of the actor named "ego", right after the first event whose number is
    the anchor, then renumbers the events after it by position, moves the
    event references in the ego list past the insertion, and rewrites every
    `test_procedure_order` to the 1-based position.

    The document is a value here, so the caller's scenario can never be
    changed: what the original achieves with `copy.deepcopy` holds by
    construction. The ego event list is worked on in place by `EventList`. */
module FaultInjector {
  import opened Wrappers
  import opened PyValues
  import Text
  import opened ScenarioDocument
  import opened EventReferences

  /** The `ValueError`s, `TypeError` and `KeyError` the splice can raise. */
  datatype InjectError =
    | MissingStory         // no `story`, or an empty one
    | EgoNotFound          // no actor named "ego"
    | EmptyEventList       // the ego actor has no events
    | AnchorNotFound       // no event numbered `after_event_no`
    | ActionTypeNotText    // `"communication_error" in action_type` on a non-string
    | MissingEventNumber   // `events[i]["no"]` on an event without a number

  const DefaultActionType: string := "can_communication_error"
  const StateComplete: string := "completeState"
  const RemarkPrefix: string := "異常系トリガー: "

  // ---------------------------------------------------------------------------
  // Locating the ego actor and the anchor

  predicate IsEgo(actor: Actor) {
    IsStr(actor.name, "ego")
  }

  /** The first actor named "ego". */
  function EgoIndex(actors: seq<Actor>): (r: Option<nat>)
    ensures r.None? <==> forall k :: 0 <= k < |actors| ==> !IsEgo(actors[k])
    ensures r.Some? ==> r.value < |actors| && IsEgo(actors[r.value])
    ensures r.Some? ==> forall k :: 0 <= k < r.value ==> !IsEgo(actors[k])
    decreases |actors|
  {
    if actors == [] then None
    else if IsEgo(actors[0]) then Some(0)
    else match EgoIndex(actors[1..])
      case None => None
      case Some(k) => Some(k + 1)
  }

  /** The first event numbered `n`. */
  function AnchorIndex(es: seq<Event>, n: int): (r: Option<nat>)
    ensures r.None? <==> forall k :: 0 <= k < |es| ==> !NoIs(es[k], n)
    ensures r.Some? ==> r.value < |es| && NoIs(es[r.value], n)
    ensures r.Some? ==> forall k :: 0 <= k < r.value ==> !NoIs(es[k], n)
    decreases |es|
  {
    if es == [] then None
    else if NoIs(es[0], n) then Some(0)
    else match AnchorIndex(es[1..], n)
      case None => None
      case Some(k) => Some(k + 1)
  }

  /** `_find_insert_position`: the index just after the first event numbered
      `after`, or -1 when there is none. */
  method FindInsertPosition(events: seq<Event>, after: int) returns (r: int)
    ensures r == -1 <==> AnchorIndex(events, after).None?
    ensures r != -1 ==> r == AnchorIndex(events, after).value + 1
  {
    var i := 0;
    while i < |events|
      invariant 0 <= i <= |events|
      invariant forall k :: 0 <= k < i ==> !NoIs(events[k], after)
    {
      if NoIs(events[i], after) {
        return i + 1;
      }
      i := i + 1;
    }
    return -1;
  }

  // ---------------------------------------------------------------------------
  // The fault event

  /** `trigger_info.get("action_type", "")` as the text the shaping compares;
      None when it is present but not a string, where `in` raises. */
  function ShapingKey(trig: Trigger): (r: Option<string>)
    ensures trig.actionType.None? ==> r == Some("")
    ensures r.None? <==> trig.actionType.Some? && !trig.actionType.value.VStr?
  {
    match trig.actionType
    case None => Some("")
    case Some(VStr(t)) => Some(t)
    case Some(_) => None
  }

  function MakeParam(name: string, value: Value, unit: string): Param {
    Param(Some(VStr(name)), Some(value), Some(VStr(unit)), None)
  }

  function RuleParam(name: string, value: Value): Param {
    Param(Some(VStr(name)), Some(value), Some(VStr("")), Some(VStr("equalTo")))
  }

  /** The action parameters, shaped by the action type `key`: a single
      `value` parameter holding `str(value)` (or "1"); a `target` appended for
      a communication error that names one; a "%" unit for a brake; and for
      steering exactly an angle (the raw value, or 45, in degrees) and a
      one-second time. */
  function ActionParams(trig: Trigger, key: string): (r: seq<Param>)
    ensures 1 <= |r| <= 2
    ensures key != "steering" ==>
      r[0].name == Some(VStr("value"))
      && r[0].value == Some(VStr(if trig.value.Some? then Str(trig.value.value) else "1"))
    ensures |r| == 2 && key != "steering" ==>
      Text.Contains(key, "communication_error") && trig.target.Some? && r[1].value == trig.target
    ensures key == "steering" && !Text.Contains(key, "communication_error") ==>
      r == [MakeParam("target_rudder_angle", trig.value.GetOr(VInt(45)), "deg"),
            MakeParam("steering_time", VInt(1), "s")]
  {
    var valueParam := MakeParam("value", VStr(if trig.value.Some? then Str(trig.value.value) else "1"), "");
    if Text.Contains(key, "communication_error") && trig.target.Some? then
      [valueParam, MakeParam("target", trig.target.value, "")]
    else if key == "brake" then
      [valueParam.(unit := Some(VStr("%")))]
    else if key == "steering" then
      [MakeParam("target_rudder_angle", trig.value.GetOr(VInt(45)), "deg"),
       MakeParam("steering_time", VInt(1), "s")]
    else
      [valueParam]
  }

  /** A brake gets the single `value` parameter with a "%" unit: "brake" is
      too short to contain "communication_error". */
  lemma BrakeParams(trig: Trigger)
    ensures ActionParams(trig, "brake")
      == [MakeParam("value", VStr(if trig.value.Some? then Str(trig.value.value) else "1"), "%")]
  {
    Text.ContainsLonger("brake", "communication_error");
  }

  /** The start trigger of a fault event: one group with one `event_state`
      condition that waits for event `triggerNo` to reach "completeState",
      delayed by `delay`. */
  function AfterEventTrigger(triggerNo: int, delay: Value): (r: StartTrigger)
    ensures |r.groups| == 1 && |r.groups[0].conditions| == 1
    ensures r.groups[0].conditions[0].delay == Some(delay)
  {
    StartTrigger([Group([Condition(
      Some(VStr("event_state")),
      [RuleParam("event_no", VInt(triggerNo)), RuleParam("state", VStr(StateComplete))],
      Some(delay))])])
  }

  /** The fault event's trigger refers to exactly one event, the anchor. */
  lemma AfterEventTriggerRefs(triggerNo: int, delay: Value)
    ensures TriggerRefs(AfterEventTrigger(triggerNo, delay)) == [triggerNo]
  {
    var r := AfterEventTrigger(triggerNo, delay);
    var condition := r.groups[0].conditions[0];
    assert condition.params[..1] == [RuleParam("event_no", VInt(triggerNo))];
    assert ParamRefs(condition.params[..1]) == [triggerNo];
    assert ConditionsRefs([condition]) == ConditionRefs(condition);
    assert GroupsRefs(r.groups) == ConditionsRefs(r.groups[0].conditions);
  }

  /** `_create_fault_event`. It fails exactly when the action type is present
      but not text. */
  function FaultEvent(trig: Trigger, newNo: int, triggerNo: int, delay: Value): (r: Result<Event, InjectError>)
    ensures r.Err? <==> ShapingKey(trig).None?
    ensures r.Err? ==> r.error == ActionTypeNotText
    ensures r.Ok? ==> r.value.no == Some(VInt(newNo)) && r.value.order == Some(VInt(newNo))
    ensures r.Ok? ==> r.value.startTrigger == Some(AfterEventTrigger(triggerNo, delay))
    ensures r.Ok? ==> (
      && r.value.action.Some?
      && r.value.action.value.kind == trig.actionType.GetOr(VStr(DefaultActionType))
      && r.value.action.value.params == ActionParams(trig, ShapingKey(trig).value))
    ensures r.Ok? ==> r.value.remarks == Some([RemarkPrefix + Str(trig.signalName.GetOr(VStr("UNKNOWN")))])
  {
    match ShapingKey(trig)
    case None => Err(ActionTypeNotText)
    case Some(key) =>
      Ok(Event(
        no := Some(VInt(newNo)),
        times := Some(VInt(1)),
        action := Some(Action(trig.actionType.GetOr(VStr(DefaultActionType)), ActionParams(trig, key))),
        startTrigger := Some(AfterEventTrigger(triggerNo, delay)),
        criteria := Some([Criterion(VStr("-"), [])]),
        remarks := Some([RemarkPrefix + Str(trig.signalName.GetOr(VStr("UNKNOWN")))]),
        order := Some(VInt(newNo))))
  }

  /** The fault event's own reference, to the anchor, sits below the rewrite
      threshold, so the rewrite leaves the event as it is. */
  lemma AfterEventTriggerNotShifted(triggerNo: int, delay: Value, threshold: int)
    requires triggerNo < threshold
    ensures ShiftedTrigger(AfterEventTrigger(triggerNo, delay), threshold) == AfterEventTrigger(triggerNo, delay)
  {
    var t := AfterEventTrigger(triggerNo, delay);
    var c := t.groups[0].conditions[0];
    assert !IsShifted(c.params[0], threshold);
    assert !IsShifted(c.params[1], threshold);
    assert ShiftedParams(c.params, threshold) == c.params;
    assert ShiftedConditions(t.groups[0].conditions, threshold) == t.groups[0].conditions;
  }

  // ---------------------------------------------------------------------------
  // The in-place steps, and the functions they are proved against

  /** Events from index `from` on carry the numbers `startNo`, `startNo + 1`, ... */
  function Renumbered(es: seq<Event>, from: nat, startNo: int): (r: seq<Event>)
    ensures |r| == |es|
  {
    seq(|es|, i requires 0 <= i < |es| =>
      if i < from then es[i] else es[i].(no := Some(VInt(startNo + (i - from)))))
  }

  /** The first event at or after `from` without a number. */
  function FirstMissingNo(es: seq<Event>, from: nat): (r: Option<nat>)
    ensures r.None? <==> forall k :: from <= k < |es| ==> es[k].no.Some?
    ensures r.Some? ==> from <= r.value < |es| && es[r.value].no.None?
    ensures r.Some? ==> forall k :: from <= k < r.value ==> es[k].no.Some?
    decreases |es| - from
  {
    if from >= |es| then None
    else if es[from].no.None? then Some(from)
    else FirstMissingNo(es, from + 1)
  }

  /** Every event's `test_procedure_order` is its 1-based position. */
  function Ordered(es: seq<Event>): (r: seq<Event>)
    ensures |r| == |es|
  {
    seq(|es|, i requires 0 <= i < |es| => es[i].(order := Some(VInt(i + 1))))
  }

  /** The ego event list while it is being edited. */
  class EventList {
    var events: seq<Event>

    constructor(es: seq<Event>)
      ensures events == es
    {
      events := es;
    }

    /** `events.insert(index, e)`; an index past the end appends. */
    method Insert(index: nat, e: Event)
      modifies this
      ensures var k := if index <= |old(events)| then index else |old(events)|;
        events == old(events)[..k] + [e] + old(events)[k..]
    {
      var k := if index <= |events| then index else |events|;
      events := events[..k] + [e] + events[k..];
    }

    /** `_renumber_events`: numbers the events from `startIndex` on by
        position. Reading the number of an event that has none raises
        `KeyError`, which ends the loop with the earlier events renumbered. */
    method RenumberEvents(startIndex: nat, startNo: int) returns (ok: bool)
      modifies this
      ensures ok <==> FirstMissingNo(old(events), startIndex).None?
      ensures ok ==> events == Renumbered(old(events), startIndex, startNo)
      ensures !ok ==> var m := FirstMissingNo(old(events), startIndex).value;
        events == Renumbered(old(events)[..m], startIndex, startNo) + old(events)[m..]
    {
      var i := startIndex;
      while i < |events|
        invariant |events| == |old(events)|
        invariant startIndex <= i
        invariant forall k :: startIndex <= k < i && k < |events| ==> old(events)[k].no.Some?
        invariant forall k :: 0 <= k < |events| ==>
          events[k] == if startIndex <= k < i then old(events)[k].(no := Some(VInt(startNo + (k - startIndex))))
                       else old(events)[k]
      {
        if events[i].no.None? {
          assert events == Renumbered(old(events)[..i], startIndex, startNo) + old(events)[i..];
          return false;
        }
        events := events[i := events[i].(no := Some(VInt(startNo + (i - startIndex))))];
        i := i + 1;
      }
      assert events == Renumbered(old(events), startIndex, startNo);
      return true;
    }

    /** `_update_event_references`: rewrites the start trigger of every event
        that has one. */
    method UpdateEventReferences(threshold: int)
      modifies this
      ensures events == ShiftedEvents(old(events), threshold)
    {
      var i := 0;
      while i < |events|
        invariant 0 <= i <= |events| == |old(events)|
        invariant forall k :: 0 <= k < i ==> events[k] == ShiftedEvent(old(events)[k], threshold)
        invariant forall k :: i <= k < |events| ==> events[k] == old(events)[k]
      {
        var event := events[i];
        if event.startTrigger.Some? {
          var trigger := UpdateTriggerReferences(event.startTrigger.value, threshold);
          events := events[i := event.(startTrigger := Some(trigger))];
        }
        i := i + 1;
      }
    }

    /** `_update_test_procedure_order` */
    method UpdateTestProcedureOrder()
      modifies this
      ensures events == Ordered(old(events))
    {
      var i := 0;
      while i < |events|
        invariant 0 <= i <= |events| == |old(events)|
        invariant forall k :: 0 <= k < i ==> events[k] == old(events)[k].(order := Some(VInt(k + 1)))
        invariant forall k :: i <= k < |events| ==> events[k] == old(events)[k]
      {
        events := events[i := events[i].(order := Some(VInt(i + 1)))];
        i := i + 1;
      }
    }
  }

  // ---------------------------------------------------------------------------
  // The whole splice

  /** The ego list after a successful splice of `f` at index `p`. */
  function Injected(es: seq<Event>, p: nat, f: Event, after: int): (r: seq<Event>)
    requires p <= |es|
    ensures |r| == |es| + 1
  {
    Ordered(ShiftedEvents(Renumbered(es[..p] + [f] + es[p..], p + 1, after + 2), after + 1))
  }

  /** The part of `inject_fault_event` that works on the ego list `es`: the
      new list, or the error raised, checked in the order the code checks. */
  function EgoSplice(es: seq<Event>, trig: Trigger, after: int, delay: Value): Result<seq<Event>, InjectError> {
    if |es| == 0 then Err(EmptyEventList)
    else match AnchorIndex(es, after)
      case None => Err(AnchorNotFound)
      case Some(a) =>
        match FaultEvent(trig, after + 1, after, delay)
        case Err(err) => Err(err)
        case Ok(f) =>
          if FirstMissingNo(es[..a + 1] + [f] + es[a + 1..], a + 2).Some? then Err(MissingEventNumber)
          else Ok(Injected(es, a + 1, f, after))
  }

  /** What `inject_fault_event` returns, or the error it raises, checked in
      the order the code checks. */
  function InjectionResult(s: Scenario, trig: Trigger, after: int, delay: Value): Result<Scenario, InjectError> {
    if s.story.None? || |s.story.value| == 0 then Err(MissingStory)
    else
      var actors := s.story.value;
      match EgoIndex(actors)
      case None => Err(EgoNotFound)
      case Some(e) =>
        match EgoSplice(actors[e].events, trig, after, delay)
        case Err(err) => Err(err)
        case Ok(es') => Ok(s.(story := Some(actors[e := actors[e].(events := es')])))
  }

  /** The search for the ego actor at the start of `inject_fault_event`:
      its index, or -1 when no actor is named "ego". */
  method FindEgo(actors: seq<Actor>) returns (ego: int)
    ensures ego == -1 <==> EgoIndex(actors).None?
    ensures ego != -1 ==> ego == EgoIndex(actors).value
  {
    ego := -1;
    var k := 0;
    while k < |actors|
      invariant 0 <= k <= |actors| && ego == -1
      invariant forall j :: 0 <= j < k ==> !IsEgo(actors[j])
    {
      if IsEgo(actors[k]) {
        ego := k;
        return;
      }
      k := k + 1;
    }
  }

  /** The edits of the ego list: insert the fault event at `p`, renumber
      after it, move the references and rewrite the orders; `None` when an
      event to renumber has no number. */
  method EditEgoEvents(events: seq<Event>, p: nat, f: Event, after: int) returns (r: Option<seq<Event>>)
    requires p <= |events|
    ensures r.None? <==> FirstMissingNo(events[..p] + [f] + events[p..], p + 1).Some?
    ensures r.Some? ==> r.value == Injected(events, p, f, after)
  {
    var list := new EventList(events);
    list.Insert(p, f);
    var ok := list.RenumberEvents(p + 1, after + 2);
    if !ok {
      return None;
    }
    list.UpdateEventReferences(after + 1);
    list.UpdateTestProcedureOrder();
    return Some(list.events);
  }

  /** The ego-list part of `inject_fault_event`. */
  method SpliceEgoEvents(events: seq<Event>, trig: Trigger, after: int, delay: Value)
    returns (r: Result<seq<Event>, InjectError>)
    ensures r == EgoSplice(events, trig, after, delay)
  {
    if |events| == 0 {
      return Err(EmptyEventList);
    }
    var insertIndex := FindInsertPosition(events, after);
    if insertIndex == -1 {
      return Err(AnchorNotFound);
    }
    var fault := FaultEvent(trig, after + 1, after, delay);
    if fault.Err? {
      return Err(fault.error);
    }
    var edited := EditEgoEvents(events, insertIndex, fault.value, after);
    if edited.None? {
      return Err(MissingEventNumber);
    }
    return Ok(edited.value);
  }

  /** `inject_fault_event` */
  method InjectFaultEvent(base: Scenario, trig: Trigger, after: int, delay: Value)
    returns (r: Result<Scenario, InjectError>)
    ensures r == InjectionResult(base, trig, after, delay)
  {
    if base.story.None? || |base.story.value| == 0 {
      return Err(MissingStory);
    }
    var actors := base.story.value;
    var ego := FindEgo(actors);
    if ego == -1 {
      return Err(EgoNotFound);
    }
    var edited := SpliceEgoEvents(actors[ego].events, trig, after, delay);
    if edited.Err? {
      return Err(edited.error);
    }
    r := Ok(base.(story := Some(actors[ego := actors[ego].(events := edited.value)])));
  }
}
