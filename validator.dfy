/** `FaultInjector.validate_scenario`: a read-only check of a scenario that
    never stops early. For every actor it reports each position whose event
    number is not that position (1-based), and then, again for every actor,
    each non-zero int event reference that names no event of the same actor. */
module Validator {
  import opened Wrappers
  import opened PyValues
  import opened ScenarioDocument
  import opened EventReferences
  import opened Sequences

  /** The two kinds of error message the check produces. */
  datatype Violation =
    | Discontinuity(expected: int, actual: Option<Value>)   // "イベント番号が不連続"
    | Dangling(eventNo: Option<Value>, reference: int)       // "存在しないイベントを参照"

  // ---------------------------------------------------------------------------
  // Contiguity

  /** The events are numbered 1, 2, ..., |es| in list order. */
  predicate Contiguous(es: seq<Event>) {
    forall i :: 0 <= i < |es| ==> NoIs(es[i], i + 1)
  }

  /** One violation for each position whose number differs from the position. */
  function ContiguityViolations(es: seq<Event>): seq<Violation>
    decreases |es|
  {
    if es == [] then []
    else
      var n := |es|;
      ContiguityViolations(es[..n - 1])
        + (if NoIs(es[n - 1], n) then [] else [Discontinuity(n, es[n - 1].no)])
  }

  /** The inner loop of the first pass, over one actor's events. */
  method CheckContiguity(events: seq<Event>) returns (errors: seq<Violation>)
    ensures errors == ContiguityViolations(events)
  {
    errors := [];
    var expected := 1;
    var i := 0;
    while i < |events|
      invariant 0 <= i <= |events| && expected == i + 1
      invariant errors == ContiguityViolations(events[..i])
    {
      var event := events[i];
      if !NoIs(event, expected) {
        errors := errors + [Discontinuity(expected, event.no)];
      }
      expected := expected + 1;
      assert events[..i + 1][..i] == events[..i];
      i := i + 1;
    }
    assert events[..i] == events;
  }

  lemma {:induction false} ContiguityViolationsEmpty(es: seq<Event>)
    ensures ContiguityViolations(es) == [] <==> Contiguous(es)
    decreases |es|
  {
    if es != [] {
      var init := es[..|es| - 1];
      ContiguityViolationsEmpty(init);
      assert forall i :: 0 <= i < |init| ==> init[i] == es[i];
    }
  }

  /** The violations name exactly the mismatched positions, with the number
      found there. */
  lemma {:induction false} ContiguityViolationsAt(es: seq<Event>, n: int, actual: Option<Value>)
    ensures Discontinuity(n, actual) in ContiguityViolations(es)
        <==> 1 <= n <= |es| && !NoIs(es[n - 1], n) && actual == es[n - 1].no
    decreases |es|
  {
    if es != [] {
      var init := es[..|es| - 1];
      var m := |es|;
      ContiguityViolationsAt(init, n, actual);
      ContiguityViolationsLast(es, n, actual);
      if 1 <= n <= |init| {
        assert init[n - 1] == es[n - 1];
      }
    }
  }

  /** A violation of a timeline is one of its earlier events' or the last
      event's own. */
  lemma ContiguityViolationsLast(es: seq<Event>, n: int, actual: Option<Value>)
    requires es != []
    ensures Discontinuity(n, actual) in ContiguityViolations(es)
        <==> Discontinuity(n, actual) in ContiguityViolations(es[..|es| - 1])
             || (n == |es| && !NoIs(es[|es| - 1], n) && actual == es[|es| - 1].no)
  {
    var m := |es|;
    var tail := if NoIs(es[m - 1], m) then [] else [Discontinuity(m, es[m - 1].no)];
    assert ContiguityViolations(es) == ContiguityViolations(es[..m - 1]) + tail;
  }

  // ---------------------------------------------------------------------------
  // References

  /** `n in {event.get("no") for event in es}` for an int `n` */
  predicate HasNo(es: seq<Event>, n: int) {
    exists k :: 0 <= k < |es| && NoIs(es[k], n)
  }

  /** A reference is fine when it is 0 (a time trigger) or names an event. */
  predicate Resolves(all: seq<Event>, r: int) {
    r == 0 || HasNo(all, r)
  }

  /** The violations of one event, whose number is `no`, with references `refs`. */
  function RefsDangling(all: seq<Event>, no: Option<Value>, refs: seq<int>): seq<Violation>
    decreases |refs|
  {
    if refs == [] then []
    else
      var r := refs[|refs| - 1];
      RefsDangling(all, no, refs[..|refs| - 1])
        + (if !Resolves(all, r) then [Dangling(no, r)] else [])
  }

  /** The violations of the events `es`, resolved against the events `all`. */
  function DanglingIn(all: seq<Event>, es: seq<Event>): seq<Violation> {
    Concat(es, (e: Event) => RefsDangling(all, e.no, EventRefs(e)))
  }

  /** The second pass over one actor's events. */
  function ReferenceViolations(es: seq<Event>): seq<Violation> {
    DanglingIn(es, es)
  }

  /** Every reference of the event `e` resolves against the events `all`. */
  predicate EventResolves(all: seq<Event>, e: Event) {
    forall j :: 0 <= j < |EventRefs(e)| ==> Resolves(all, EventRefs(e)[j])
  }

  /** Every reference of every event is 0 or the number of an event. */
  predicate RefsResolve(es: seq<Event>) {
    forall i :: 0 <= i < |es| ==> EventResolves(es, es[i])
  }

  /** The set comprehension `{event.get("no") for event in events}` */
  function NumbersOf(es: seq<Event>): set<Option<Value>> {
    set k | 0 <= k < |es| :: es[k].no
  }

  /** `n in numbers` under Python's equality, where True == 1 and False == 0. */
  predicate InNumbers(numbers: set<Option<Value>>, n: int) {
    || Some(VInt(n)) in numbers
    || (n == 1 && Some(VBool(true)) in numbers)
    || (n == 0 && Some(VBool(false)) in numbers)
  }

  lemma InNumbersOf(es: seq<Event>, n: int)
    ensures InNumbers(NumbersOf(es), n) <==> HasNo(es, n)
  {
    if HasNo(es, n) {
      var k :| 0 <= k < |es| && NoIs(es[k], n);
      assert es[k].no in NumbersOf(es);
    }
  }

  /** The innermost loop of the second pass: one event's references. */
  method CheckEventRefs(events: seq<Event>, numbers: set<Option<Value>>, no: Option<Value>, refs: seq<int>)
    returns (errors: seq<Violation>)
    requires numbers == NumbersOf(events)
    ensures errors == RefsDangling(events, no, refs)
  {
    errors := [];
    var j := 0;
    while j < |refs|
      invariant 0 <= j <= |refs|
      invariant errors == RefsDangling(events, no, refs[..j])
    {
      var r := refs[j];
      InNumbersOf(events, r);
      if !InNumbers(numbers, r) && r != 0 {
        errors := errors + [Dangling(no, r)];
      }
      assert refs[..j + 1][..j] == refs[..j];
      j := j + 1;
    }
    assert refs[..j] == refs;
  }

  /** The second pass over one actor's events. */
  method CheckReferences(events: seq<Event>) returns (errors: seq<Violation>)
    ensures errors == ReferenceViolations(events)
  {
    var numbers := set k | 0 <= k < |events| :: events[k].no;
    errors := [];
    var i := 0;
    while i < |events|
      invariant 0 <= i <= |events|
      invariant errors == DanglingIn(events, events[..i])
    {
      var event := events[i];
      var found := [];
      if event.startTrigger.Some? {
        var refs := ExtractReferencedEvents(event.startTrigger.value);
        found := CheckEventRefs(events, numbers, event.no, refs);
      }
      ConcatStep(events, (e: Event) => RefsDangling(events, e.no, EventRefs(e)), i);
      errors := errors + found;
      i := i + 1;
    }
    assert events[..i] == events;
  }

  lemma {:induction false} RefsDanglingEmpty(all: seq<Event>, no: Option<Value>, refs: seq<int>)
    ensures RefsDangling(all, no, refs) == [] <==> forall j :: 0 <= j < |refs| ==> Resolves(all, refs[j])
    decreases |refs|
  {
    if refs != [] {
      var init := refs[..|refs| - 1];
      RefsDanglingEmpty(all, no, init);
      assert forall j :: 0 <= j < |init| ==> init[j] == refs[j];
    }
  }

  lemma DanglingInEmpty(all: seq<Event>, es: seq<Event>)
    ensures DanglingIn(all, es) == [] <==> forall i :: 0 <= i < |es| ==> EventResolves(all, es[i])
  {
    ConcatEmpty(es, (e: Event) => RefsDangling(all, e.no, EventRefs(e)));
    forall i | 0 <= i < |es|
      ensures RefsDangling(all, es[i].no, EventRefs(es[i])) == [] <==> EventResolves(all, es[i])
    {
      RefsDanglingEmpty(all, es[i].no, EventRefs(es[i]));
    }
  }

  /** An actor has no dangling-reference violation exactly when all its
      references resolve. */
  lemma ReferenceViolationsEmpty(es: seq<Event>)
    ensures ReferenceViolations(es) == [] <==> RefsResolve(es)
  {
    DanglingInEmpty(es, es);
  }

  /** In a contiguous timeline the event numbers are exactly 1..|es|. */
  lemma ContiguousHasNo(es: seq<Event>, n: int)
    requires Contiguous(es)
    ensures HasNo(es, n) <==> 1 <= n <= |es|
  {
    if 1 <= n <= |es| {
      assert NoIs(es[n - 1], n);
    }
  }

  // ---------------------------------------------------------------------------
  // The whole scenario

  function AllContiguity(actors: seq<Actor>): seq<Violation> {
    Concat(actors, (a: Actor) => ContiguityViolations(a.events))
  }

  function AllDangling(actors: seq<Actor>): seq<Violation> {
    Concat(actors, (a: Actor) => ReferenceViolations(a.events))
  }

  /** All contiguity violations, actor by actor, then all reference
      violations, actor by actor; nothing when there is no story. */
  function ScenarioViolations(s: Scenario): seq<Violation> {
    if s.story.None? then [] else AllContiguity(s.story.value) + AllDangling(s.story.value)
  }

  /** The first pass: contiguity, actor by actor. */
  method CheckAllContiguity(actors: seq<Actor>) returns (errors: seq<Violation>)
    ensures errors == AllContiguity(actors)
  {
    errors := [];
    var a := 0;
    while a < |actors|
      invariant 0 <= a <= |actors|
      invariant errors == AllContiguity(actors[..a])
    {
      var found := CheckContiguity(actors[a].events);
      ConcatStep(actors, (a: Actor) => ContiguityViolations(a.events), a);
      errors := errors + found;
      a := a + 1;
    }
    assert actors[..a] == actors;
  }

  /** The second pass: references, actor by actor. */
  method CheckAllReferences(actors: seq<Actor>) returns (errors: seq<Violation>)
    ensures errors == AllDangling(actors)
  {
    errors := [];
    var b := 0;
    while b < |actors|
      invariant 0 <= b <= |actors|
      invariant errors == AllDangling(actors[..b])
    {
      var found := CheckReferences(actors[b].events);
      ConcatStep(actors, (a: Actor) => ReferenceViolations(a.events), b);
      errors := errors + found;
      b := b + 1;
    }
    assert actors[..b] == actors;
  }

  /** `validate_scenario`: both passes when the scenario has a story. */
  method ValidateScenario(s: Scenario) returns (errors: seq<Violation>)
    ensures errors == ScenarioViolations(s)
  {
    errors := [];
    if s.story.Some? {
      var contiguity := CheckAllContiguity(s.story.value);
      var references := CheckAllReferences(s.story.value);
      errors := contiguity + references;
    }
  }

  /** An actor passes both checks. */
  predicate ActorValid(actor: Actor) {
    Contiguous(actor.events) && RefsResolve(actor.events)
  }

  lemma AllContiguityEmpty(actors: seq<Actor>)
    ensures AllContiguity(actors) == [] <==> forall a :: 0 <= a < |actors| ==> Contiguous(actors[a].events)
  {
    ConcatEmpty(actors, (a: Actor) => ContiguityViolations(a.events));
    forall a | 0 <= a < |actors|
      ensures ContiguityViolations(actors[a].events) == [] <==> Contiguous(actors[a].events)
    {
      ContiguityViolationsEmpty(actors[a].events);
    }
  }

  lemma AllDanglingEmpty(actors: seq<Actor>)
    ensures AllDangling(actors) == [] <==> forall a :: 0 <= a < |actors| ==> RefsResolve(actors[a].events)
  {
    ConcatEmpty(actors, (a: Actor) => ReferenceViolations(a.events));
    forall a | 0 <= a < |actors|
      ensures ReferenceViolations(actors[a].events) == [] <==> RefsResolve(actors[a].events)
    {
      ReferenceViolationsEmpty(actors[a].events);
    }
  }

  /** The check reports nothing exactly when there is no story or every actor
      is contiguous with resolving references. */
  lemma ScenarioViolationsEmpty(s: Scenario)
    ensures ScenarioViolations(s) == []
        <==> s.story.None? || forall a :: 0 <= a < |s.story.value| ==> ActorValid(s.story.value[a])
  {
    if s.story.Some? {
      AllContiguityEmpty(s.story.value);
      AllDanglingEmpty(s.story.value);
    }
  }
}
