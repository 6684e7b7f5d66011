/** The list logic of the requirements client: the subtree filter of
    `get_items_by_component`, the depth filter and paging cursor of
    `get_all_items`, and the field projection of `_prepare_fields`. The HTTP
    requests themselves are not modelled: a page request is a function from
    the `startAt` cursor to the response. */
module JamaFilter {
  import opened Wrappers
  import opened PyValues
  import opened Sequences
  import opened JamaItems
  import Text

  /** `if max_depth:` for an optional int. */
  predicate DepthLimited(maxDepth: Option<int>) {
    maxDepth.Some? && maxDepth.value != 0
  }

  /** `if s:` for an optional string. */
  predicate Given(s: Option<string>) {
    s.Some? && s.value != ""
  }

  // ---------------------------------------------------------------------------
  // get_items_by_component

  /** The item asked for: its sequence equals the given sequence, or its name
      equals the given name (an empty or absent criterion matches nothing). */
  predicate IsTarget(item: Item, sequence: Option<string>, name: Option<string>) {
    (Given(sequence) && item.sequence == sequence.value) || (Given(name) && item.name == name.value)
  }

  /** An item below the target at sequence `top`: its sequence starts with
      `top + "."` and, when a depth limit is set, it is at most that many
      levels deeper than the target. */
  predicate InSubtree(item: Item, top: string, maxDepth: Option<int>) {
    && top != ""
    && Text.StartsWith(item.sequence, top + ".")
    && (DepthLimited(maxDepth) ==> |Parts(item.sequence)| - |Parts(top)| <= maxDepth.value)
  }

  /** The position of the first target. */
  function FirstTarget(items: seq<Item>, sequence: Option<string>, name: Option<string>): (r: Option<nat>)
    ensures r.None? <==> forall k :: 0 <= k < |items| ==> !IsTarget(items[k], sequence, name)
    ensures r.Some? ==>
      r.value < |items| && IsTarget(items[r.value], sequence, name)
      && forall k :: 0 <= k < r.value ==> !IsTarget(items[k], sequence, name)
    decreases |items|
  {
    if items == [] then None
    else if IsTarget(items[0], sequence, name) then Some(0)
    else
      var rest := FirstTarget(items[1..], sequence, name);
      if rest.None? then None else Some(rest.value + 1)
  }

  /** The items of `items` below `top`, in order. */
  function Descendants(items: seq<Item>, top: string, maxDepth: Option<int>): seq<Item>
    decreases |items|
  {
    if items == [] then []
    else
      var last := items[|items| - 1];
      Descendants(items[..|items| - 1], top, maxDepth) + (if InSubtree(last, top, maxDepth) then [last] else [])
  }

  /** What `get_items_by_component` returns for the list of all items: the
      first target followed by the later items below it; nothing when no
      item is a target. */
  function ComponentItems(items: seq<Item>, sequence: Option<string>, name: Option<string>, maxDepth: Option<int>): seq<Item> {
    match FirstTarget(items, sequence, name)
    case None => []
    case Some(t) => [items[t]] + Descendants(items[t + 1..], items[t].sequence, maxDepth)
  }

  /** The test applied to each item after the target: the prefix check,
      then the relative depth check when a depth limit is set. */
  method IsBelow(item: Item, top: string, maxDepth: Option<int>) returns (below: bool)
    ensures below == InSubtree(item, top, maxDepth)
  {
    below := false;
    if top != "" && Text.StartsWith(item.sequence, top + ".") {
      if DepthLimited(maxDepth) {
        var targetDepth := |Text.Split(top, '.')|;
        var itemDepth := |Text.Split(item.sequence, '.')|;
        if itemDepth - targetDepth > maxDepth.value {
          return;
        }
      }
      below := true;
    }
  }

  /** What the filtering loop knows after the first `k` items: before the
      target is found nothing is kept and no item so far is the target; once
      it is found at `t`, the kept items are the target followed by its
      descendants among the items after it. */
  ghost predicate FilterState(allItems: seq<Item>, k: nat, sequence: Option<string>, name: Option<string>,
                              maxDepth: Option<int>, targetFound: bool, targetSequence: Option<string>,
                              filtered: seq<Item>, t: nat)
    requires k <= |allItems|
  {
    && (!targetFound ==> filtered == [] && forall j :: 0 <= j < k ==> !IsTarget(allItems[j], sequence, name))
    && (targetFound ==>
        && t < k && IsTarget(allItems[t], sequence, name)
        && (forall j :: 0 <= j < t ==> !IsTarget(allItems[j], sequence, name))
        && targetSequence == Some(allItems[t].sequence)
        && filtered == [allItems[t]] + Descendants(allItems[t + 1..k], allItems[t].sequence, maxDepth))
  }

  /** One turn of the filtering loop, on the item at `k`. */
  method FilterItem(allItems: seq<Item>, k: nat, sequence: Option<string>, name: Option<string>, maxDepth: Option<int>,
                    targetFound: bool, targetSequence: Option<string>, filtered: seq<Item>, ghost t: nat)
    returns (targetFound': bool, targetSequence': Option<string>, filtered': seq<Item>, ghost t': nat)
    requires k < |allItems|
    requires FilterState(allItems, k, sequence, name, maxDepth, targetFound, targetSequence, filtered, t)
    ensures FilterState(allItems, k + 1, sequence, name, maxDepth, targetFound', targetSequence', filtered', t')
  {
    targetFound', targetSequence', filtered', t' := targetFound, targetSequence, filtered, t;
    var item := allItems[k];
    if !targetFound {
      if IsTarget(item, sequence, name) {
        targetFound' := true;
        targetSequence' := Some(item.sequence);
        filtered' := filtered + [item];
        t' := k;
        assert allItems[t' + 1..k + 1] == [];
      }
    } else {
      var top := targetSequence.value;
      ghost var before := Descendants(allItems[t + 1..k], top, maxDepth);
      DescendantsStep(allItems, t, k, top, maxDepth);
      var below := IsBelow(item, top, maxDepth);
      if below {
        assert [allItems[t]] + before + [item] == [allItems[t]] + (before + [item]);
        filtered' := filtered + [item];
      }
    }
  }

  /** The filtering loop of `get_items_by_component`. */
  method FilterComponent(allItems: seq<Item>, sequence: Option<string>, name: Option<string>, maxDepth: Option<int>)
    returns (filtered: seq<Item>)
    ensures filtered == ComponentItems(allItems, sequence, name, maxDepth)
  {
    filtered := [];
    var targetFound := false;
    var targetSequence: Option<string> := None;
    ghost var t: nat := 0;
    for k := 0 to |allItems|
      invariant FilterState(allItems, k, sequence, name, maxDepth, targetFound, targetSequence, filtered, t)
    {
      targetFound, targetSequence, filtered, t :=
        FilterItem(allItems, k, sequence, name, maxDepth, targetFound, targetSequence, filtered, t);
    }
    if targetFound {
      FirstTargetAt(allItems, t, sequence, name);
      assert allItems[t + 1..|allItems|] == allItems[t + 1..];
    } else {
      NoTarget(allItems, sequence, name, maxDepth);
    }
  }

  lemma NoTarget(items: seq<Item>, sequence: Option<string>, name: Option<string>, maxDepth: Option<int>)
    requires forall k :: 0 <= k < |items| ==> !IsTarget(items[k], sequence, name)
    ensures ComponentItems(items, sequence, name, maxDepth) == []
  {
  }

  lemma FirstTargetAt(items: seq<Item>, k: nat, sequence: Option<string>, name: Option<string>)
    requires k < |items| && IsTarget(items[k], sequence, name)
    requires forall j :: 0 <= j < k ==> !IsTarget(items[j], sequence, name)
    ensures FirstTarget(items, sequence, name) == Some(k)
  {
  }

  lemma DescendantsStep(items: seq<Item>, t: nat, k: nat, top: string, maxDepth: Option<int>)
    requires t < k < |items|
    ensures Descendants(items[t + 1..k + 1], top, maxDepth)
      == Descendants(items[t + 1..k], top, maxDepth) + (if InSubtree(items[k], top, maxDepth) then [items[k]] else [])
  {
    var xs := items[t + 1..k + 1];
    assert xs[..|xs| - 1] == items[t + 1..k] && xs[|xs| - 1] == items[k];
  }

  /** Exactly the items below `top` are kept, and in order. */
  lemma {:induction false} DescendantsMembers(items: seq<Item>, top: string, maxDepth: Option<int>, x: Item)
    ensures x in Descendants(items, top, maxDepth) <==> x in items && InSubtree(x, top, maxDepth)
    ensures IsSubsequence(Descendants(items, top, maxDepth), items)
    decreases |items|
  {
    if items == [] {
      EmptySubsequence(items);
    } else {
      var init := items[..|items| - 1];
      var last := items[|items| - 1];
      DescendantsMembers(init, top, maxDepth, x);
      assert items == init + [last];
      var d := Descendants(init, top, maxDepth);
      assert items[..|items| - 1] == init && items[|items| - 1] == last;
      if InSubtree(last, top, maxDepth) {
        assert Descendants(items, top, maxDepth) == d + [last];
        assert (d + [last])[..|d|] == d && (d + [last])[|d|] == last;
      } else {
        assert Descendants(items, top, maxDepth) == d;
      }
    }
  }

  /** The result is a selection of the input in input order. */
  lemma ComponentIsSubsequence(items: seq<Item>, sequence: Option<string>, name: Option<string>, maxDepth: Option<int>)
    ensures IsSubsequence(ComponentItems(items, sequence, name, maxDepth), items)
  {
    match FirstTarget(items, sequence, name)
    case None =>
      EmptySubsequence(items);
    case Some(t) =>
      var rest := items[t + 1..];
      var d := Descendants(rest, items[t].sequence, maxDepth);
      DescendantsMembers(rest, items[t].sequence, maxDepth, items[t]);
      SubsequenceFrom(items, t, d);
  }

  /** The result is non-empty exactly when some item is a target; it then
      starts with the first target, and every later element is an item after
      it that lies below it. */
  lemma ComponentShape(items: seq<Item>, sequence: Option<string>, name: Option<string>, maxDepth: Option<int>, x: Item)
    ensures ComponentItems(items, sequence, name, maxDepth) != [] <==>
      exists k :: 0 <= k < |items| && IsTarget(items[k], sequence, name)
    ensures ComponentItems(items, sequence, name, maxDepth) != [] ==>
      var t := FirstTarget(items, sequence, name).value;
      var r := ComponentItems(items, sequence, name, maxDepth);
      && r[0] == items[t]
      && (x in r[1..] <==> x in items[t + 1..] && InSubtree(x, items[t].sequence, maxDepth))
  {
    match FirstTarget(items, sequence, name)
    case None =>
    case Some(t) =>
      DescendantsMembers(items[t + 1..], items[t].sequence, maxDepth, x);
      var r := ComponentItems(items, sequence, name, maxDepth);
      assert r[1..] == Descendants(items[t + 1..], items[t].sequence, maxDepth);
  }

  // ---------------------------------------------------------------------------
  // get_all_items

  /** The number of levels of a sequence: its dot-separated parts, or 0 when
      it is empty. */
  function Depth(sequence: string): (d: nat)
    ensures d == 0 <==> sequence == ""
    ensures '.' !in sequence && sequence != "" ==> d == 1
  {
    if sequence == "" then 0
    else if '.' !in sequence then
      Text.SplitNoSep(sequence, '.');
      |Parts(sequence)|
    else |Parts(sequence)|
  }

  /** The absolute depth filter: without a limit everything is kept;
      with one, an item is kept when its depth is at most the limit. */
  predicate KeepAtDepth(sequence: string, maxDepth: Option<int>) {
    !DepthLimited(maxDepth) || Depth(sequence) <= maxDepth.value
  }

  /** Items requested per page. */
  const PageSize: nat := 50

  /** A page response: its `data` (absent or null read as empty) and its
      `meta.pageInfo.totalResults` (absent read as 0). */
  datatype Response<R> = Response(data: seq<R>, totalResults: Option<int>)

  function Total<R>(response: Response<R>): int {
    response.totalResults.GetOr(0)
  }

  /** The items of one page that pass the depth filter, processed, in order. */
  function Kept<R, T>(data: seq<R>, sequenceOf: R -> string, process: R -> T, maxDepth: Option<int>): seq<T>
    decreases |data|
  {
    if data == [] then []
    else
      var last := data[|data| - 1];
      Kept(data[..|data| - 1], sequenceOf, process, maxDepth)
        + (if KeepAtDepth(sequenceOf(last), maxDepth) then [process(last)] else [])
  }

  /** Paging stops after the page requested at `startAt` when the page is
      empty or the next cursor reaches the reported total. */
  predicate Stops<R>(response: Response<R>, startAt: nat) {
    response.data == [] || startAt + PageSize >= Total(response)
  }

  /** The items gathered from page `page` on (its cursor is `50 * page`),
      making at most `fuel` more requests; `None` when more are needed. */
  function Collect<R, T>(fetch: nat -> Response<R>, sequenceOf: R -> string, process: R -> T,
                         maxDepth: Option<int>, page: nat, fuel: nat): Option<seq<T>>
    decreases fuel
  {
    if fuel == 0 then None
    else
      var response := fetch(PageSize * page);
      var kept := Kept(response.data, sequenceOf, process, maxDepth);
      if Stops(response, PageSize * page) then Some(kept)
      else
        match Collect(fetch, sequenceOf, process, maxDepth, page + 1, fuel - 1)
        case None => None
        case Some(rest) => Some(kept + rest)
  }

  /** The inner loop of `get_all_items` over one page. */
  method KeepPage<R, T>(data: seq<R>, sequenceOf: R -> string, process: R -> T, maxDepth: Option<int>)
    returns (kept: seq<T>)
    ensures kept == Kept(data, sequenceOf, process, maxDepth)
  {
    kept := [];
    for i := 0 to |data|
      invariant kept == Kept(data[..i], sequenceOf, process, maxDepth)
    {
      var item := data[i];
      assert data[..i + 1][..i] == data[..i] && data[..i + 1][i] == item;
      if DepthLimited(maxDepth) {
        var sequence := sequenceOf(item);
        var depth := if sequence != "" then |Text.Split(sequence, '.')| else 0;
        if depth > maxDepth.value {
          continue;
        }
      }
      kept := kept + [process(item)];
    }
    assert data[..|data|] == data;
  }

  /** `get_all_items`: request pages at cursor 0, 50, 100, ..., keep the
      items that pass the depth filter, and stop after an empty page or once
      the cursor reaches the reported total. At most `fuel` requests are
      made; `None` means the loop would have gone on. */
  method GetAllItems<R, T>(fetch: nat -> Response<R>, sequenceOf: R -> string, process: R -> T,
                           maxDepth: Option<int>, fuel: nat)
    returns (r: Option<seq<T>>)
    ensures r == Collect(fetch, sequenceOf, process, maxDepth, 0, fuel)
  {
    var items: seq<T> := [];
    var startAt: nat := 0;
    ghost var page: nat := 0;
    ghost var all := Collect(fetch, sequenceOf, process, maxDepth, 0, fuel);
    if all.Some? {
      assert items + all.value == all.value;
    }
    while true
      invariant page <= fuel && startAt == PageSize * page
      invariant Collect(fetch, sequenceOf, process, maxDepth, 0, fuel)
        == (match Collect(fetch, sequenceOf, process, maxDepth, page, fuel - page)
            case None => None
            case Some(rest) => Some(items + rest))
      decreases fuel - page
    {
      if startAt == PageSize * fuel {
        return None;
      }
      var response := fetch(startAt);
      var data := response.data;
      if data == [] {
        assert items + [] == items;
        return Some(items);
      }
      var kept := KeepPage(data, sequenceOf, process, maxDepth);
      ghost var next := Collect(fetch, sequenceOf, process, maxDepth, page + 1, fuel - page - 1);
      if next.Some? {
        assert items + (kept + next.value) == (items + kept) + next.value;
      }
      items := items + kept;
      var total := response.totalResults.GetOr(0);
      startAt := startAt + PageSize;
      page := page + 1;
      if startAt >= total {
        return Some(items);
      }
    }
  }

  /** Each kept item comes from a raw item of the page that passes the depth
      filter, and each such raw item is kept. */
  lemma {:induction false} KeptMembers<R, T>(data: seq<R>, sequenceOf: R -> string, process: R -> T,
                                             maxDepth: Option<int>, x: T)
    ensures x in Kept(data, sequenceOf, process, maxDepth) <==>
      exists r :: r in data && KeepAtDepth(sequenceOf(r), maxDepth) && process(r) == x
    ensures |Kept(data, sequenceOf, process, maxDepth)| <= |data|
    decreases |data|
  {
    if data != [] {
      var init := data[..|data| - 1];
      var last := data[|data| - 1];
      KeptMembers(init, sequenceOf, process, maxDepth, x);
      assert data == init + [last];
    }
  }

  /** Without a depth limit every item of a page is kept. */
  lemma {:induction false} KeptAll<R, T>(data: seq<R>, sequenceOf: R -> string, process: R -> T, maxDepth: Option<int>)
    requires !DepthLimited(maxDepth)
    ensures |Kept(data, sequenceOf, process, maxDepth)| == |data|
    ensures forall i :: 0 <= i < |data| ==> Kept(data, sequenceOf, process, maxDepth)[i] == process(data[i])
    decreases |data|
  {
    if data != [] {
      KeptAll(data[..|data| - 1], sequenceOf, process, maxDepth);
    }
  }

  /** Paging ends within the request budget: when no page reports more than
      `total` results and the budget covers `total` from the current cursor,
      the loop stops before the budget runs out. */
  lemma {:induction false} CollectTerminates<R, T>(fetch: nat -> Response<R>, sequenceOf: R -> string, process: R -> T,
                                                   maxDepth: Option<int>, page: nat, fuel: nat, total: int)
    requires forall s: nat :: Total(fetch(s)) <= total
    requires fuel >= 1 && PageSize * (page + fuel) >= total
    ensures Collect(fetch, sequenceOf, process, maxDepth, page, fuel).Some?
    decreases fuel
  {
    var response := fetch(PageSize * page);
    if !Stops(response, PageSize * page) {
      assert PageSize * page + PageSize < total;
      CollectTerminates(fetch, sequenceOf, process, maxDepth, page + 1, fuel - 1, total);
    }
  }

  /** Every gathered item is a processed raw item, passing the depth filter,
      of a page requested at a cursor `50 * p` for a page `p` within the
      budget. */
  lemma {:induction false} CollectMembers<R, T>(fetch: nat -> Response<R>, sequenceOf: R -> string, process: R -> T,
                                                maxDepth: Option<int>, page: nat, fuel: nat, x: T)
    requires Collect(fetch, sequenceOf, process, maxDepth, page, fuel).Some?
    requires x in Collect(fetch, sequenceOf, process, maxDepth, page, fuel).value
    ensures exists s: nat, r ::
      && s % PageSize == 0 && PageSize * page <= s < PageSize * (page + fuel)
      && r in fetch(s).data && KeepAtDepth(sequenceOf(r), maxDepth) && process(r) == x
    decreases fuel
  {
    var s := PageSize * page;
    var response := fetch(s);
    var kept := Kept(response.data, sequenceOf, process, maxDepth);
    if x in kept {
      KeptMembers(response.data, sequenceOf, process, maxDepth, x);
      var r :| r in response.data && KeepAtDepth(sequenceOf(r), maxDepth) && process(r) == x;
      assert s % PageSize == 0;
    } else {
      CollectMembers(fetch, sequenceOf, process, maxDepth, page + 1, fuel - 1, x);
    }
  }

  // ---------------------------------------------------------------------------
  // _prepare_fields

  /** The item keys copied into the API's `fields` object, each under the
      same name. */
  const FieldMapping: seq<(string, string)> := [
    ("name", "name"), ("description", "description"), ("assignee", "assignee"),
    ("status", "status"), ("tags", "tags"), ("reason", "reason"),
    ("preconditions", "preconditions"), ("target_system", "target_system")]

  /** The API keys of the mapping. */
  function MappedKeys(): set<string> {
    set j | 0 <= j < |FieldMapping| :: FieldMapping[j].1
  }

  /** The `fields` object for an item whose entries are `None` where the
      Python value is `None`: every mapped key present with a non-`None`
      value, and nothing else. */
  function Fields<V>(itemData: map<string, Option<V>>): (fields: map<string, V>)
    ensures forall k :: k in fields <==> k in MappedKeys() && k in itemData && itemData[k].Some?
    ensures forall k :: k in fields ==> itemData[k] == Some(fields[k])
  {
    map k | k in MappedKeys() && k in itemData && itemData[k].Some? :: itemData[k].value
  }

  /** Every pair of the mapping keeps the key's name. */
  lemma MappingIsIdentity()
    ensures forall j :: 0 <= j < |FieldMapping| ==> FieldMapping[j].0 == FieldMapping[j].1
  {
  }

  /** `_prepare_fields`: copy the mapped keys whose values are not `None`. */
  method PrepareFields<V>(itemData: map<string, Option<V>>) returns (fields: map<string, V>)
    ensures fields == Fields(itemData)
  {
    fields := map[];
    MappingIsIdentity();
    for i := 0 to |FieldMapping|
      invariant forall k :: k in fields <==>
        (exists j :: 0 <= j < i && FieldMapping[j].1 == k) && k in itemData && itemData[k].Some?
      invariant forall k :: k in fields ==> itemData[k] == Some(fields[k])
    {
      var (internalKey, apiKey) := FieldMapping[i];
      if internalKey in itemData && itemData[internalKey].Some? {
        fields := fields[apiKey := itemData[internalKey].value];
      }
    }
  }

  /** Preparing the fields twice changes nothing: the result already holds
      only mapped keys. */
  lemma FieldsIdempotent<V>(itemData: map<string, Option<V>>)
    ensures Fields(map k | k in Fields(itemData) :: Some(Fields(itemData)[k])) == Fields(itemData)
  {
  }
}
