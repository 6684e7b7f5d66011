/** What `inject_fault_event` guarantees about its result: when it fails, how
    the ego list grows, how the events are numbered and ordered, how the
    references move, and that a well-formed ego timeline stays well-formed
    under the checks of `validate_scenario`. */
module InjectionProperties {
  import opened Wrappers
  import opened PyValues
  import opened ScenarioDocument
  import opened EventReferences
  import opened Validator
  import opened FaultInjector

  /** The events of the first actor named "ego", when there is one. */
  function EgoEvents(s: Scenario): (r: Option<seq<Event>>)
    ensures r.Some? <==> s.story.Some? && EgoIndex(s.story.value).Some?
  {
    if s.story.None? then None
    else match EgoIndex(s.story.value)
      case None => None
      case Some(e) => Some(s.story.value[e].events)
  }

  /** Replacing an actor's events keeps the position of the first ego actor. */
  lemma EgoIndexKept(actors: seq<Actor>, e: nat, events: seq<Event>)
    requires EgoIndex(actors) == Some(e)
    ensures EgoIndex(actors[e := actors[e].(events := events)]) == Some(e)
  {
    var updated := actors[e := actors[e].(events := events)];
    assert IsEgo(updated[e]);
    assert forall k :: 0 <= k < e ==> updated[k] == actors[k];
  }

  /** The element at position `i` of the ego list after a splice at `p`: its
      position is its order, its number comes from the renumbering, its
      references are those of the element spliced there, moved by the
      rewrite, and nothing else about it changes. */
  lemma InjectedAt(es: seq<Event>, p: nat, f: Event, after: int, i: nat)
    requires p <= |es| && i <= |es|
    ensures var spliced := es[..p] + [f] + es[p..];
      var n := Injected(es, p, f, after)[i];
      && spliced[i] == (if i < p then es[i] else if i == p then f else es[i - 1])
      && n.order == Some(VInt(i + 1))
      && n.no == (if i <= p then spliced[i].no else Some(VInt(after + 1 + (i - p))))
      && n.(no := spliced[i].no, order := spliced[i].order, startTrigger := spliced[i].startTrigger) == spliced[i]
      && n.startTrigger.Some? == spliced[i].startTrigger.Some?
      && (after >= 0 ==> EventRefs(n) == ShiftAll(EventRefs(spliced[i]), after + 1))
  {
    var spliced := es[..p] + [f] + es[p..];
    var renumbered := Renumbered(spliced, p + 1, after + 2);
    var shifted := ShiftedEvents(renumbered, after + 1);
    assert Injected(es, p, f, after)[i] == shifted[i].(order := Some(VInt(i + 1)));
    assert shifted[i] == ShiftedEvent(renumbered[i], after + 1);
    assert EventRefs(renumbered[i]) == EventRefs(spliced[i]);
    if after >= 0 {
      EventRefsShifted(renumbered[i], after + 1);
    }
  }

  /** Renumbering is by position: events before the fault event keep their
      number, and the event `k` places past the fault event is numbered
      `after + 2 + k`, whatever its old number was. */
  lemma InjectedNumbers(es: seq<Event>, p: nat, f: Event, after: int)
    requires p <= |es|
    ensures var es' := Injected(es, p, f, after);
      && (forall i :: 0 <= i < p ==> es'[i].no == es[i].no)
      && es'[p].no == f.no
      && (forall i :: p < i <= |es| ==> es'[i].no == Some(VInt(after + 1 + (i - p))))
  {
    forall i | 0 <= i <= |es| {
      InjectedAt(es, p, f, after, i);
    }
  }

  /** Every event's `test_procedure_order` is its 1-based position. */
  lemma InjectedOrder(es: seq<Event>, p: nat, f: Event, after: int)
    requires p <= |es|
    ensures var es' := Injected(es, p, f, after);
      forall i :: 0 <= i < |es'| ==> es'[i].order == Some(VInt(i + 1))
  {
    forall i | 0 <= i <= |es| {
      InjectedAt(es, p, f, after, i);
    }
  }

  /** The events other than the fault event are the old ones in the old
      order; only their number, their order and the references in their
      start trigger change. For a non-negative anchor each reference at or
      above `after + 1` goes up by one and every other reference stays. */
  lemma InjectedReferences(es: seq<Event>, p: nat, f: Event, after: int)
    requires p <= |es| && after >= 0
    ensures var es' := Injected(es, p, f, after);
      && (forall i :: 0 <= i < |es| ==>
            var j := if i < p then i else i + 1;
            && es'[j].(no := es[i].no, order := es[i].order, startTrigger := es[i].startTrigger) == es[i]
            && es'[j].startTrigger.Some? == es[i].startTrigger.Some?
            && EventRefs(es'[j]) == ShiftAll(EventRefs(es[i]), after + 1))
      && EventRefs(es'[p]) == ShiftAll(EventRefs(f), after + 1)
  {
    var es' := Injected(es, p, f, after);
    forall i | 0 <= i < |es|
      ensures var j := if i < p then i else i + 1;
        && es'[j].(no := es[i].no, order := es[i].order, startTrigger := es[i].startTrigger) == es[i]
        && es'[j].startTrigger.Some? == es[i].startTrigger.Some?
        && EventRefs(es'[j]) == ShiftAll(EventRefs(es[i]), after + 1)
    {
      var j := if i < p then i else i + 1;
      InjectedAt(es, p, f, after, j);
    }
    InjectedAt(es, p, f, after, p);
  }

  // ---------------------------------------------------------------------------
  // Well-formed timelines stay well-formed

  /** Contiguous numbering makes the anchor of `after` the event at index
      `after - 1`, and every event has a number. */
  lemma ContiguousAnchor(es: seq<Event>, after: int)
    requires Contiguous(es) && 1 <= after <= |es|
    ensures AnchorIndex(es, after) == Some(after - 1)
    ensures forall k :: 0 <= k < |es| ==> es[k].no.Some?
  {
    assert NoIs(es[after - 1], after);
    var a := AnchorIndex(es, after).value;
    assert NoIs(es[a], a + 1);
  }

  /** On a contiguous timeline, renumbering by position and adding one to the
      old number agree: every event after the fault event is the old event
      with its number plus one. */
  lemma ContiguousRenumberIsSuccessor(es: seq<Event>, f: Event, after: int)
    requires Contiguous(es) && 1 <= after <= |es|
    ensures var es' := Injected(es, after, f, after);
      forall i :: after <= i < |es| ==> NoIs(es[i], i + 1) && NoIs(es'[i + 1], i + 2)
  {
    InjectedNumbers(es, after, f, after);
    var es' := Injected(es, after, f, after);
    forall i | after <= i < |es|
      ensures NoIs(es[i], i + 1) && NoIs(es'[i + 1], i + 2)
    {
    }
  }

  /** Off a contiguous timeline the two disagree: in a list numbered 1, 5, a
      splice after event 1 numbers the old event 5 as 3, not 6. */
  lemma RenumberIsByPosition(f: Event)
    ensures var e1 := Event(Some(VInt(1)), None, None, None, None, None, None);
      var e5 := e1.(no := Some(VInt(5)));
      Injected([e1, e5], 1, f, 1)[2].no == Some(VInt(3))
  {
    var e1 := Event(Some(VInt(1)), None, None, None, None, None, None);
    var e5 := e1.(no := Some(VInt(5)));
    InjectedAt([e1, e5], 1, f, 1, 2);
  }

  /** Splicing an event numbered `after + 1` right after event `after` of a
      contiguous timeline gives a contiguous timeline. */
  lemma InjectedContiguous(es: seq<Event>, f: Event, after: int)
    requires Contiguous(es) && 1 <= after <= |es|
    requires f.no == Some(VInt(after + 1))
    ensures Contiguous(Injected(es, after, f, after))
  {
    InjectedNumbers(es, after, f, after);
    var es' := Injected(es, after, f, after);
    forall i | 0 <= i < |es'| ensures NoIs(es'[i], i + 1) {
      if i < after {
        assert NoIs(es[i], i + 1);
      }
    }
  }

  /** References that resolved in a contiguous timeline of `n` events still
      resolve, once moved by the rewrite, in a contiguous timeline of `n + 1`
      events. */
  lemma ShiftedRefsResolve(es: seq<Event>, es': seq<Event>, refs: seq<int>, after: int, shifted: seq<int>)
    requires Contiguous(es) && Contiguous(es') && |es'| == |es| + 1
    requires 1 <= after <= |es|
    requires forall j :: 0 <= j < |refs| ==> Resolves(es, refs[j])
    requires shifted == ShiftAll(refs, after + 1)
    ensures forall j :: 0 <= j < |shifted| ==> Resolves(es', shifted[j])
  {
    forall j | 0 <= j < |shifted| ensures Resolves(es', shifted[j]) {
      ContiguousHasNo(es, refs[j]);
      ContiguousHasNo(es', shifted[j]);
    }
  }

  /** One event of the spliced list: its references resolve. */
  lemma InjectedEventResolves(es: seq<Event>, f: Event, after: int, i: nat)
    requires Contiguous(es) && RefsResolve(es)
    requires 1 <= after <= |es| && i <= |es|
    requires f.no == Some(VInt(after + 1)) && EventRefs(f) == [after]
    requires Contiguous(Injected(es, after, f, after))
    ensures EventResolves(Injected(es, after, f, after), Injected(es, after, f, after)[i])
  {
    var es' := Injected(es, after, f, after);
    InjectedAt(es, after, f, after, i);
    if i == after {
      assert EventRefs(es'[i]) == ShiftAll([after], after + 1) == [after];
      ContiguousHasNo(es', after);
    } else {
      var o := if i < after then i else i - 1;
      assert EventResolves(es, es[o]);
      ShiftedRefsResolve(es, es', EventRefs(es[o]), after, EventRefs(es'[i]));
    }
  }

  /** Splicing an event that refers to `after` right after event `after` of
      a contiguous timeline whose references resolve gives a timeline whose
      references resolve. */
  lemma InjectedRefsResolve(es: seq<Event>, f: Event, after: int)
    requires Contiguous(es) && RefsResolve(es)
    requires 1 <= after <= |es|
    requires f.no == Some(VInt(after + 1)) && EventRefs(f) == [after]
    ensures RefsResolve(Injected(es, after, f, after))
  {
    InjectedContiguous(es, f, after);
    var es' := Injected(es, after, f, after);
    forall i | 0 <= i < |es'|
      ensures EventResolves(es', es'[i])
    {
      InjectedEventResolves(es, f, after, i);
    }
  }

  /** The list-level guarantee: `validate_scenario` finds neither a numbering
      gap nor a dangling reference in a contiguous timeline whose references
      resolve, after a splice of an event numbered `after + 1` that refers to
      event `after`. */
  lemma InjectedValid(es: seq<Event>, f: Event, after: int)
    requires Contiguous(es) && RefsResolve(es)
    requires 1 <= after <= |es|
    requires f.no == Some(VInt(after + 1)) && EventRefs(f) == [after]
    ensures ContiguityViolations(Injected(es, after, f, after)) == []
    ensures ReferenceViolations(Injected(es, after, f, after)) == []
  {
    InjectedContiguous(es, f, after);
    InjectedRefsResolve(es, f, after);
    ContiguityViolationsEmpty(Injected(es, after, f, after));
    ReferenceViolationsEmpty(Injected(es, after, f, after));
  }

  /** The fault event lands at the splice position unchanged but for its
      order: its own reference, to the anchor, is below the rewrite threshold. */
  lemma InjectedFaultEvent(es: seq<Event>, p: nat, f: Event, after: int, delay: Value)
    requires p <= |es|
    requires f.startTrigger == Some(AfterEventTrigger(after, delay))
    ensures Injected(es, p, f, after)[p] == f.(order := Some(VInt(p + 1)))
  {
    AfterEventTriggerNotShifted(after, delay, after + 1);
    var spliced := es[..p] + [f] + es[p..];
    var renumbered := Renumbered(spliced, p + 1, after + 2);
    assert renumbered[p] == f;
    assert ShiftedEvent(f, after + 1) == f;
    assert Injected(es, p, f, after)[p] == ShiftedEvents(renumbered, after + 1)[p].(order := Some(VInt(p + 1)));
  }

  /** The fault event refers to exactly one event, the anchor. */
  lemma FaultEventRefs(trig: Trigger, newNo: int, after: int, delay: Value)
    requires ShapingKey(trig).Some?
    ensures EventRefs(FaultEvent(trig, newNo, after, delay).value) == [after]
  {
    AfterEventTriggerRefs(after, delay);
  }

  // ---------------------------------------------------------------------------
  // The whole document

  /** Renumbering after a splice at `a + 1` reads the numbers of exactly the
      old events after index `a`. */
  lemma MissingNoAfterSplice(es: seq<Event>, a: nat, f: Event)
    requires a < |es|
    ensures FirstMissingNo(es[..a + 1] + [f] + es[a + 1..], a + 2).None?
        <==> forall k :: a < k < |es| ==> es[k].no.Some?
  {
    var spliced := es[..a + 1] + [f] + es[a + 1..];
    assert forall k :: a + 2 <= k < |spliced| ==> spliced[k] == es[k - 1];
    if FirstMissingNo(spliced, a + 2).Some? {
      var m := FirstMissingNo(spliced, a + 2).value;
      assert es[m - 1].no.None?;
    } else {
      forall k | a < k < |es| ensures es[k].no.Some? {
        assert spliced[k + 1] == es[k];
      }
    }
  }

  /** The ego-list part succeeds exactly when there is an event numbered
      `after`, the action type is absent or text, and every event after the
      anchor has a number. */
  lemma EgoSpliceSucceeds(es: seq<Event>, trig: Trigger, after: int, delay: Value)
    ensures EgoSplice(es, trig, after, delay).Ok? <==>
      && AnchorIndex(es, after).Some?
      && ShapingKey(trig).Some?
      && forall k :: AnchorIndex(es, after).value < k < |es| ==> es[k].no.Some?
  {
    if AnchorIndex(es, after).Some? && ShapingKey(trig).Some? {
      MissingNoAfterSplice(es, AnchorIndex(es, after).value, FaultEvent(trig, after + 1, after, delay).value);
    }
  }

  /** A successful ego-list part gives the fault event spliced in right
      after the anchor. */
  lemma EgoSpliceValue(es: seq<Event>, trig: Trigger, after: int, delay: Value)
    requires EgoSplice(es, trig, after, delay).Ok?
    ensures AnchorIndex(es, after).Some? && ShapingKey(trig).Some?
    ensures EgoSplice(es, trig, after, delay).value
      == Injected(es, AnchorIndex(es, after).value + 1, FaultEvent(trig, after + 1, after, delay).value, after)
  {
    var fault := FaultEvent(trig, after + 1, after, delay);
    assert fault.Ok?;
    var a := AnchorIndex(es, after).value;
    assert EgoSplice(es, trig, after, delay) == Ok(Injected(es, a + 1, fault.value, after));
  }

  /** A successful splice of the document is a successful splice of the ego
      list, which becomes the ego actor's new list. */
  lemma InjectionEgoEvents(s: Scenario, trig: Trigger, after: int, delay: Value)
    requires InjectionResult(s, trig, after, delay).Ok?
    ensures EgoEvents(s).Some? && EgoSplice(EgoEvents(s).value, trig, after, delay).Ok?
    ensures EgoEvents(InjectionResult(s, trig, after, delay).value)
      == Some(EgoSplice(EgoEvents(s).value, trig, after, delay).value)
  {
    var actors := s.story.value;
    var e := EgoIndex(actors).value;
    EgoIndexKept(actors, e, EgoSplice(actors[e].events, trig, after, delay).value);
  }

  /** The whole document is spliced exactly when there is an ego actor and
      its list is spliced; and nothing but the ego list changes: the summary,
      the variation, the number of actors, every other actor and the ego
      actor's name stay as they were, and the ego actor is still the first one
      named "ego". */
  lemma InjectionIsEgoSplice(s: Scenario, trig: Trigger, after: int, delay: Value)
    ensures InjectionResult(s, trig, after, delay).Ok? <==>
      EgoEvents(s).Some? && EgoSplice(EgoEvents(s).value, trig, after, delay).Ok?
    ensures InjectionResult(s, trig, after, delay).Ok? ==>
      var r := InjectionResult(s, trig, after, delay).value;
      var e := EgoIndex(s.story.value).value;
      && r.summary == s.summary && r.variation == s.variation
      && r.story.Some? && |r.story.value| == |s.story.value|
      && (forall i :: 0 <= i < |s.story.value| && i != e ==> r.story.value[i] == s.story.value[i])
      && r.story.value[e].name == s.story.value[e].name
      && EgoIndex(r.story.value) == Some(e)
  {
    if InjectionResult(s, trig, after, delay).Ok? {
      var actors := s.story.value;
      var e := EgoIndex(actors).value;
      EgoIndexKept(actors, e, EgoSplice(actors[e].events, trig, after, delay).value);
    }
  }

  /** The splice succeeds exactly when there is an ego actor with an event
      numbered `after`, the action type is absent or text, and every event
      after the anchor has a number. */
  lemma InjectionSucceeds(s: Scenario, trig: Trigger, after: int, delay: Value)
    ensures InjectionResult(s, trig, after, delay).Ok? <==>
      && EgoEvents(s).Some?
      && AnchorIndex(EgoEvents(s).value, after).Some?
      && ShapingKey(trig).Some?
      && forall k :: AnchorIndex(EgoEvents(s).value, after).value < k < |EgoEvents(s).value|
           ==> EgoEvents(s).value[k].no.Some?
  {
    InjectionIsEgoSplice(s, trig, after, delay);
    if EgoEvents(s).Some? {
      EgoSpliceSucceeds(EgoEvents(s).value, trig, after, delay);
    }
  }

  /** After a successful splice the ego list is `Injected`: the fault event
      is spliced in right after the anchor. */
  lemma InjectionShape(s: Scenario, trig: Trigger, after: int, delay: Value)
    requires InjectionResult(s, trig, after, delay).Ok?
    ensures var es := EgoEvents(s).value;
      var a := AnchorIndex(es, after).value;
      var f := FaultEvent(trig, after + 1, after, delay).value;
      EgoEvents(InjectionResult(s, trig, after, delay).value) == Some(Injected(es, a + 1, f, after))
  {
    InjectionEgoEvents(s, trig, after, delay);
    EgoSpliceValue(EgoEvents(s).value, trig, after, delay);
  }

  /** The ego list grows by exactly one event, the fault event, right after
      the anchor. */
  lemma InjectionInsertsFaultEvent(s: Scenario, trig: Trigger, after: int, delay: Value)
    requires InjectionResult(s, trig, after, delay).Ok?
    ensures var es := EgoEvents(s).value;
      var a := AnchorIndex(es, after).value;
      var f := FaultEvent(trig, after + 1, after, delay).value;
      var es' := EgoEvents(InjectionResult(s, trig, after, delay).value);
      && es'.Some?
      && |es'.value| == |es| + 1
      && es'.value[a + 1] == f.(order := Some(VInt(a + 2)))
  {
    InjectionShape(s, trig, after, delay);
    var es := EgoEvents(s).value;
    var a := AnchorIndex(es, after).value;
    var f := FaultEvent(trig, after + 1, after, delay).value;
    InjectedFaultEvent(es, a + 1, f, after, delay);
  }

  /** The ego-list part on a contiguous timeline whose references resolve,
      anchored at one of its events, succeeds, and its list has neither a
      numbering gap nor a dangling reference. */
  lemma EgoSpliceKeepsValid(es: seq<Event>, trig: Trigger, after: int, delay: Value)
    requires Contiguous(es) && RefsResolve(es)
    requires 1 <= after <= |es|
    requires ShapingKey(trig).Some?
    ensures EgoSplice(es, trig, after, delay).Ok?
    ensures ContiguityViolations(EgoSplice(es, trig, after, delay).value) == []
    ensures ReferenceViolations(EgoSplice(es, trig, after, delay).value) == []
  {
    ContiguousAnchor(es, after);
    EgoSpliceSucceeds(es, trig, after, delay);
    EgoSpliceValue(es, trig, after, delay);
    FaultEventRefs(trig, after + 1, after, delay);
    InjectedValid(es, FaultEvent(trig, after + 1, after, delay).value, after);
  }

  /** The headline guarantee: splicing a fault event after an existing event
      of a contiguous ego timeline whose references all resolve succeeds, and
      `validate_scenario` finds neither a numbering gap nor a dangling
      reference in the new ego timeline. */
  lemma InjectionKeepsEgoValid(s: Scenario, trig: Trigger, after: int, delay: Value)
    requires EgoEvents(s).Some?
    requires Contiguous(EgoEvents(s).value) && RefsResolve(EgoEvents(s).value)
    requires 1 <= after <= |EgoEvents(s).value|
    requires ShapingKey(trig).Some?
    ensures InjectionResult(s, trig, after, delay).Ok?
    ensures var es' := EgoEvents(InjectionResult(s, trig, after, delay).value);
      && es'.Some?
      && ContiguityViolations(es'.value) == []
      && ReferenceViolations(es'.value) == []
  {
    var es := EgoEvents(s).value;
    EgoSpliceKeepsValid(es, trig, after, delay);
    InjectionIsEgoSplice(s, trig, after, delay);
    InjectionEgoEvents(s, trig, after, delay);
  }

  /** A scenario on which `validate_scenario` reports nothing still reports
      nothing after a splice after one of the ego events: the other actors
      are untouched and the ego timeline stays well-formed. */
  lemma InjectionPreservesValidity(s: Scenario, trig: Trigger, after: int, delay: Value)
    requires ScenarioViolations(s) == []
    requires EgoEvents(s).Some? && 1 <= after <= |EgoEvents(s).value|
    requires ShapingKey(trig).Some?
    ensures InjectionResult(s, trig, after, delay).Ok?
    ensures ScenarioViolations(InjectionResult(s, trig, after, delay).value) == []
  {
    ScenarioViolationsEmpty(s);
    var actors := s.story.value;
    var e := EgoIndex(actors).value;
    assert ActorValid(actors[e]);
    InjectionKeepsEgoValid(s, trig, after, delay);
    InjectionIsEgoSplice(s, trig, after, delay);
    var r := InjectionResult(s, trig, after, delay).value;
    var es' := EgoEvents(r).value;
    ContiguityViolationsEmpty(es');
    ReferenceViolationsEmpty(es');
    forall i | 0 <= i < |r.story.value| ensures ActorValid(r.story.value[i]) {
      if i != e {
        assert r.story.value[i] == actors[i];
        assert ActorValid(actors[i]);
      }
    }
    ScenarioViolationsEmpty(r);
  }

  // ---------------------------------------------------------------------------
  // The scenario of the injection test script

  function WaitFor(no: int): StartTrigger {
    StartTrigger([Group([Condition(
      Some(VStr("event_state")),
      [Param(Some(VStr("event_no")), Some(VInt(no)), None, None),
       Param(Some(VStr("state")), Some(VStr("completeState")), None, None)],
      None)])])
  }

  lemma WaitForRefs(no: int)
    ensures TriggerRefs(WaitFor(no)) == [no]
  {
    var t := WaitFor(no);
    var c := t.groups[0].conditions[0];
    assert c.params[..1] == [c.params[0]];
    assert ParamRefs(c.params[..1]) == [no];
    assert ConditionsRefs([c]) == ConditionRefs(c);
    assert GroupsRefs(t.groups) == ConditionsRefs(t.groups[0].conditions);
  }

  function TestEvent(no: int, kind: string, trigger: Option<StartTrigger>): Event {
    Event(Some(VInt(no)), None, Some(Action(VStr(kind), [])), trigger, None, None, Some(VInt(no)))
  }

  /** Three ego events, the second waiting for the first and the third for
      the second. */
  function TestEvents(): seq<Event> {
    [TestEvent(1, "engine_startup_operation", None),
     TestEvent(2, "shift", Some(WaitFor(1))),
     TestEvent(3, "appcssw", Some(WaitFor(2)))]
  }

  function TestScenario(): Scenario {
    Scenario(Some(VStr("テストシナリオ")), None, Some([Actor(Some(VStr("ego")), TestEvents())]))
  }

  /** A brake-error trigger record. */
  function TestTrigger(): Trigger {
    Trigger(Some(VStr("115200")), None, Some(VStr("CAN_BRAKE_ERROR")), Some(VInt(1)),
      Some(VStr("can_communication_error")), None, None)
  }

  /** In the list: the spliced event becomes event 3, the old event 3 becomes
      event 4, and its reference to event 2 stays 2, since only references
      at or above 3 move. */
  lemma TestScriptSplice(f: Event)
    ensures var es' := Injected(TestEvents(), 2, f, 2);
      && |es'| == 4
      && es'[2].no == f.no
      && es'[3].no == Some(VInt(4))
      && EventRefs(es'[3]) == [2]
  {
    var es := TestEvents();
    InjectedAt(es, 2, f, 2, 2);
    InjectedAt(es, 2, f, 2, 3);
    WaitForRefs(2);
    assert EventRefs(es[2]) == [2];
    assert ShiftAll([2], 3) == [2];
  }

  /** The test script's fault event is event 3, of the trigger's action
      type, and waits for event 2. */
  lemma TestFaultEvent(delay: Value)
    ensures var f := FaultEvent(TestTrigger(), 3, 2, delay);
      && f.Ok?
      && f.value.no == Some(VInt(3))
      && f.value.action.Some?
      && f.value.action.value.kind == VStr("can_communication_error")
      && EventRefs(f.value) == [2]
  {
    FaultEventRefs(TestTrigger(), 3, 2, delay);
  }

  /** The splice of the test script succeeds, and its ego list is the three
      test events with the fault event spliced in after event 2. */
  lemma TestScriptSucceeds(delay: Value)
    ensures var r := InjectionResult(TestScenario(), TestTrigger(), 2, delay);
      && r.Ok?
      && EgoEvents(r.value) == Some(Injected(TestEvents(), 2, FaultEvent(TestTrigger(), 3, 2, delay).value, 2))
  {
    var es := TestEvents();
    var s := TestScenario();
    var trig := TestTrigger();
    assert EgoIndex(s.story.value) == Some(0);
    assert Contiguous(es) by {
      assert NoIs(es[0], 1) && NoIs(es[1], 2) && NoIs(es[2], 3);
    }
    ContiguousAnchor(es, 2);
    InjectionSucceeds(s, trig, 2, delay);
    InjectionShape(s, trig, 2, delay);
  }

  /** The test script end to end: four ego events, the third the fault
      event, numbered 3, of the trigger's action type; the old event 3 is now
      event 4 and still waits for event 2. */
  lemma TestScriptExample(delay: Value)
    ensures var r := InjectionResult(TestScenario(), TestTrigger(), 2, delay);
      && r.Ok?
      && var es' := EgoEvents(r.value);
      && es'.Some? && |es'.value| == 4
      && es'.value[2].no == Some(VInt(3))
      && es'.value[2].action.Some?
      && es'.value[2].action.value.kind == VStr("can_communication_error")
      && es'.value[3].no == Some(VInt(4))
      && EventRefs(es'.value[3]) == [2]
  {
    TestScriptSucceeds(delay);
    var f := FaultEvent(TestTrigger(), 3, 2, delay).value;
    TestFaultEvent(delay);
    TestScriptSplice(f);
    InjectedAt(TestEvents(), 2, f, 2, 2);
  }
}
