/** Event references inside start triggers: the in-place rewrite that shifts
    them after an insertion (`_update_trigger_references`,
    `_update_event_references`) and the read-only extraction the validator
    uses (`_extract_referenced_events`). A reference is the value of a
    parameter named `event_no` in a condition of type `event_state`. */
module EventReferences {
  import opened Wrappers
  import opened PyValues
  import opened ScenarioDocument

  /** `condition.get("type") == "event_state"` */
  predicate IsEventState(c: Condition) {
    IsStr(c.kind, "event_state")
  }

  /** `param.get("name") == "event_no"` */
  predicate NamesEventNo(p: Param) {
    IsStr(p.name, "event_no")
  }

  /** `param.get("value", 0)`, the value the rewrite inspects */
  function RewriteValue(p: Param): Value {
    p.value.GetOr(VInt(0))
  }

  /** Whether the rewrite increments this parameter: an `event_no` parameter
      whose value (0 when absent) is an int at or above the threshold. */
  predicate IsShifted(p: Param, threshold: int) {
    NamesEventNo(p) && AsInt(RewriteValue(p)).Some? && AsInt(RewriteValue(p)).value >= threshold
  }

  // ---------------------------------------------------------------------------
  // The rewrite, as a function of the trigger

  /** One parameter after the rewrite: only its value can change, and it
      changes exactly when the parameter is shifted, to the old int plus one. */
  function ShiftedParam(p: Param, threshold: int): (r: Param)
    ensures r.name == p.name && r.unit == p.unit && r.rule == p.rule
    ensures r == p <==> !IsShifted(p, threshold)
    ensures IsShifted(p, threshold) ==> r.value == Some(VInt(AsInt(RewriteValue(p)).value + 1))
  {
    if IsShifted(p, threshold) then p.(value := Some(VInt(AsInt(RewriteValue(p)).value + 1)))
    else p
  }

  function ShiftedParams(ps: seq<Param>, threshold: int): (r: seq<Param>)
    ensures |r| == |ps|
  {
    seq(|ps|, i requires 0 <= i < |ps| => ShiftedParam(ps[i], threshold))
  }

  function ShiftedCondition(c: Condition, threshold: int): Condition {
    if IsEventState(c) then c.(params := ShiftedParams(c.params, threshold)) else c
  }

  function ShiftedConditions(cs: seq<Condition>, threshold: int): (r: seq<Condition>)
    ensures |r| == |cs|
  {
    seq(|cs|, i requires 0 <= i < |cs| => ShiftedCondition(cs[i], threshold))
  }

  function ShiftedGroup(g: Group, threshold: int): Group {
    Group(ShiftedConditions(g.conditions, threshold))
  }

  function ShiftedTrigger(t: StartTrigger, threshold: int): (r: StartTrigger)
    ensures |r.groups| == |t.groups|
  {
    StartTrigger(seq(|t.groups|, i requires 0 <= i < |t.groups| => ShiftedGroup(t.groups[i], threshold)))
  }

  /** An event after the rewrite: only its start trigger, if it has one. */
  function ShiftedEvent(e: Event, threshold: int): Event {
    if e.startTrigger.Some? then e.(startTrigger := Some(ShiftedTrigger(e.startTrigger.value, threshold)))
    else e
  }

  function ShiftedEvents(es: seq<Event>, threshold: int): (r: seq<Event>)
    ensures |r| == |es|
  {
    seq(|es|, i requires 0 <= i < |es| => ShiftedEvent(es[i], threshold))
  }

  /** `_update_trigger_references`: walks the condition groups, their
      conditions and the parameters of each `event_state` condition, and
      increments every `event_no` value that is an int at or above
      `threshold`. The nested loops update the copied trigger in place. */
  method UpdateTriggerReferences(trigger: StartTrigger, threshold: int) returns (r: StartTrigger)
    ensures r == ShiftedTrigger(trigger, threshold)
  {
    var groups := trigger.groups;
    var g := 0;
    while g < |groups|
      invariant 0 <= g <= |groups| == |trigger.groups|
      invariant forall k :: 0 <= k < g ==> groups[k] == ShiftedGroup(trigger.groups[k], threshold)
      invariant forall k :: g <= k < |groups| ==> groups[k] == trigger.groups[k]
    {
      var conditions := groups[g].conditions;
      var c := 0;
      while c < |conditions|
        invariant 0 <= c <= |conditions| == |trigger.groups[g].conditions|
        invariant forall k :: 0 <= k < c ==>
          conditions[k] == ShiftedCondition(trigger.groups[g].conditions[k], threshold)
        invariant forall k :: c <= k < |conditions| ==> conditions[k] == trigger.groups[g].conditions[k]
      {
        if IsEventState(conditions[c]) {
          var params := conditions[c].params;
          var p := 0;
          while p < |params|
            invariant 0 <= p <= |params| == |conditions[c].params|
            invariant forall k :: 0 <= k < p ==> params[k] == ShiftedParam(conditions[c].params[k], threshold)
            invariant forall k :: p <= k < |params| ==> params[k] == conditions[c].params[k]
          {
            if NamesEventNo(params[p]) {
              var oldValue := params[p].value.GetOr(VInt(0));
              var n := AsInt(oldValue);
              if n.Some? && n.value >= threshold {
                params := params[p := params[p].(value := Some(VInt(n.value + 1)))];
              }
            }
            p := p + 1;
          }
          assert params == ShiftedParams(conditions[c].params, threshold);
          conditions := conditions[c := conditions[c].(params := params)];
        }
        c := c + 1;
      }
      assert conditions == ShiftedConditions(trigger.groups[g].conditions, threshold);
      groups := groups[g := Group(conditions)];
      g := g + 1;
    }
    r := StartTrigger(groups);
  }

  // ---------------------------------------------------------------------------
  // Extraction of the int references

  /** The reference one parameter contributes: the int value of an
      `event_no` parameter (a bool counts as 0 or 1); nothing otherwise. */
  function ParamRef(p: Param): (r: seq<int>)
    ensures |r| <= 1
  {
    if NamesEventNo(p) && p.value.Some? && AsInt(p.value.value).Some? then [AsInt(p.value.value).value]
    else []
  }

  function ParamRefs(ps: seq<Param>): seq<int>
    decreases |ps|
  {
    if ps == [] then [] else ParamRefs(ps[..|ps| - 1]) + ParamRef(ps[|ps| - 1])
  }

  function ConditionRefs(c: Condition): seq<int> {
    if IsEventState(c) then ParamRefs(c.params) else []
  }

  function ConditionsRefs(cs: seq<Condition>): seq<int>
    decreases |cs|
  {
    if cs == [] then [] else ConditionsRefs(cs[..|cs| - 1]) + ConditionRefs(cs[|cs| - 1])
  }

  function GroupsRefs(gs: seq<Group>): seq<int>
    decreases |gs|
  {
    if gs == [] then [] else GroupsRefs(gs[..|gs| - 1]) + ConditionsRefs(gs[|gs| - 1].conditions)
  }

  /** Every int event reference of a start trigger, in document order. */
  function TriggerRefs(t: StartTrigger): seq<int> {
    GroupsRefs(t.groups)
  }

  /** The references of an event; an event without a start trigger has none. */
  function EventRefs(e: Event): seq<int> {
    if e.startTrigger.Some? then TriggerRefs(e.startTrigger.value) else []
  }

  /** The innermost loop of `_extract_referenced_events`: the int values of
      the `event_no` parameters of one `event_state` condition. */
  method CollectParamRefs(params: seq<Param>) returns (referenced: seq<int>)
    ensures referenced == ParamRefs(params)
  {
    referenced := [];
    var p := 0;
    while p < |params|
      invariant 0 <= p <= |params|
      invariant referenced == ParamRefs(params[..p])
    {
      var param := params[p];
      if NamesEventNo(param) && param.value.Some? {
        var n := AsInt(param.value.value);
        if n.Some? {
          referenced := referenced + [n.value];
        }
      }
      assert params[..p + 1][..p] == params[..p];
      p := p + 1;
    }
    assert params[..p] == params;
  }

  /** The middle loop of `_extract_referenced_events`: the references of the
      conditions of one group, in order. */
  method CollectConditionsRefs(conditions: seq<Condition>) returns (referenced: seq<int>)
    ensures referenced == ConditionsRefs(conditions)
  {
    referenced := [];
    var c := 0;
    while c < |conditions|
      invariant 0 <= c <= |conditions|
      invariant referenced == ConditionsRefs(conditions[..c])
    {
      var condition := conditions[c];
      if IsEventState(condition) {
        var found := CollectParamRefs(condition.params);
        referenced := referenced + found;
      }
      assert conditions[..c + 1][..c] == conditions[..c];
      c := c + 1;
    }
    assert conditions[..c] == conditions;
  }

  /** `_extract_referenced_events`: the int value of every `event_no`
      parameter of every `event_state` condition, group by group and
      condition by condition. */
  method ExtractReferencedEvents(trigger: StartTrigger) returns (referenced: seq<int>)
    ensures referenced == TriggerRefs(trigger)
  {
    referenced := [];
    var groups := trigger.groups;
    var g := 0;
    while g < |groups|
      invariant 0 <= g <= |groups|
      invariant referenced == GroupsRefs(groups[..g])
    {
      var found := CollectConditionsRefs(groups[g].conditions);
      referenced := referenced + found;
      assert groups[..g + 1][..g] == groups[..g];
      g := g + 1;
    }
    assert groups[..g] == groups;
  }

  // ---------------------------------------------------------------------------
  // How the rewrite moves the references

  /** Each reference at or above the threshold, plus one. */
  function ShiftAll(refs: seq<int>, threshold: int): (r: seq<int>)
    ensures |r| == |refs|
  {
    seq(|refs|, i requires 0 <= i < |refs| => if refs[i] >= threshold then refs[i] + 1 else refs[i])
  }

  lemma ShiftAllAppend(a: seq<int>, b: seq<int>, threshold: int)
    ensures ShiftAll(a + b, threshold) == ShiftAll(a, threshold) + ShiftAll(b, threshold)
  {
  }

  lemma {:induction false} ParamRefsShifted(ps: seq<Param>, threshold: int)
    requires threshold > 0
    ensures ParamRefs(ShiftedParams(ps, threshold)) == ShiftAll(ParamRefs(ps), threshold)
    decreases |ps|
  {
    if ps != [] {
      var init := ps[..|ps| - 1];
      ParamRefsShifted(init, threshold);
      assert ShiftedParams(ps, threshold)[..|ps| - 1] == ShiftedParams(init, threshold);
      ShiftAllAppend(ParamRefs(init), ParamRef(ps[|ps| - 1]), threshold);
    }
  }

  lemma {:induction false} ConditionsRefsShifted(cs: seq<Condition>, threshold: int)
    requires threshold > 0
    ensures ConditionsRefs(ShiftedConditions(cs, threshold)) == ShiftAll(ConditionsRefs(cs), threshold)
    decreases |cs|
  {
    if cs != [] {
      var init := cs[..|cs| - 1];
      var last := cs[|cs| - 1];
      ConditionsRefsShifted(init, threshold);
      assert ShiftedConditions(cs, threshold)[..|cs| - 1] == ShiftedConditions(init, threshold);
      if IsEventState(last) {
        ParamRefsShifted(last.params, threshold);
      }
      ShiftAllAppend(ConditionsRefs(init), ConditionRefs(last), threshold);
    }
  }

  lemma {:induction false} GroupsRefsShifted(gs: seq<Group>, threshold: int)
    requires threshold > 0
    ensures GroupsRefs(ShiftedTrigger(StartTrigger(gs), threshold).groups)
         == ShiftAll(GroupsRefs(gs), threshold)
    decreases |gs|
  {
    if gs != [] {
      var init := gs[..|gs| - 1];
      GroupsRefsShifted(init, threshold);
      assert ShiftedTrigger(StartTrigger(gs), threshold).groups[..|gs| - 1]
          == ShiftedTrigger(StartTrigger(init), threshold).groups;
      ConditionsRefsShifted(gs[|gs| - 1].conditions, threshold);
      ShiftAllAppend(GroupsRefs(init), ConditionsRefs(gs[|gs| - 1].conditions), threshold);
    }
  }

  /** For a positive threshold the rewrite moves exactly the references at or
      above the threshold up by one and keeps every other reference, in order.
      (With a threshold of 0 or less an `event_no` parameter that has no value
      also gains the value 1, because the rewrite reads it as 0.) */
  lemma EventRefsShifted(e: Event, threshold: int)
    requires threshold > 0
    ensures EventRefs(ShiftedEvent(e, threshold)) == ShiftAll(EventRefs(e), threshold)
  {
    if e.startTrigger.Some? {
      GroupsRefsShifted(e.startTrigger.value.groups, threshold);
    }
  }

  /** The rewrite only touches start triggers. */
  lemma ShiftedEventKeepsFields(e: Event, threshold: int)
    ensures ShiftedEvent(e, threshold).(startTrigger := e.startTrigger) == e
    ensures ShiftedEvent(e, threshold).startTrigger.Some? == e.startTrigger.Some?
  {
  }
}
