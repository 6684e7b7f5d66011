/** The shape of a test-scenario document and of a trigger record, as the
    fault injector, the validator and the generator read and write them.

    Keys the code probes with `in` or `.get(key)` are `Option`s (None: the key
    is absent). Keys read with an empty-list default (`events`,
    `condition_groups`, `conditions`, `params`) are plain sequences, an absent
    key being the empty sequence. Leaf values the code type-tests or prints
    are `Value`s. */
module ScenarioDocument {
  import opened Wrappers
  import opened PyValues

  /** `{name, value, unit[, rule]}` of an action or a trigger condition */
  datatype Param = Param(
    name: Option<Value>,
    value: Option<Value>,
    unit: Option<Value>,
    rule: Option<Value>)

  /** `{type, params, delay}`; only `event_state` conditions reference events */
  datatype Condition = Condition(kind: Option<Value>, params: seq<Param>, delay: Option<Value>)

  /** `{conditions}`: conditions that must hold together */
  datatype Group = Group(conditions: seq<Condition>)

  /** `start_trigger = {condition_groups}`: alternative condition groups */
  datatype StartTrigger = StartTrigger(groups: seq<Group>)

  /** `action = {type, params}` */
  datatype Action = Action(kind: Value, params: seq<Param>)

  /** one entry of `criteria` */
  datatype Criterion = Criterion(targetName: Value, expressions: seq<Value>)

  /** one entry of an actor's `events` */
  datatype Event = Event(
    no: Option<Value>,
    times: Option<Value>,
    action: Option<Action>,
    startTrigger: Option<StartTrigger>,
    criteria: Option<seq<Criterion>>,
    remarks: Option<seq<string>>,
    order: Option<Value>)   // test_procedure_order

  /** one entry of `story`: an actor's timeline */
  datatype Actor = Actor(name: Option<Value>, events: seq<Event>)

  /** the whole document */
  datatype Scenario = Scenario(
    summary: Option<Value>,     // scenario_summary
    variation: Option<Value>,
    story: Option<seq<Actor>>)

  /** A trigger record: what the sheet parser produces and the injector and
      the generator consume (`jama_id`, `requirement_name`, `signal_name`,
      `value`, `action_type`, `remarks`, `target`). */
  datatype Trigger = Trigger(
    jamaId: Option<Value>,
    requirementName: Option<Value>,
    signalName: Option<Value>,
    value: Option<Value>,
    actionType: Option<Value>,
    remarks: Option<Value>,
    target: Option<Value>)

  /** `event.get("no") == n`: the event has a number, and it equals `n` (a
      bool number counts as 0 or 1). */
  predicate NoIs(e: Event, n: int) {
    e.no.Some? && EqualsInt(e.no.value, n)
  }
}
