/** The exporter's hierarchy resolver: for an item at sequence "1.2.3" it
    looks up, for "1", "1.2" and "1.2.3" in turn, the first item with that
    sequence and collects their names, root first. */
module Hierarchy {
  import opened Wrappers
  import opened Sequences
  import opened JamaItems
  import Text

  /** The sequence made of the first `n` parts: `".".join(parts[:n])`. */
  function PrefixSequence(parts: seq<string>, n: nat): string
    requires n <= |parts|
  {
    Text.Join(parts[..n], ".")
  }

  /** The position of the first item whose sequence is `s`. */
  function FirstWithSequence(items: seq<Item>, s: string): (r: Option<nat>)
    ensures r.None? <==> forall k :: 0 <= k < |items| ==> items[k].sequence != s
    ensures r.Some? ==>
      r.value < |items| && items[r.value].sequence == s
      && forall k :: 0 <= k < r.value ==> items[k].sequence != s
    decreases |items|
  {
    if items == [] then None
    else if items[0].sequence == s then Some(0)
    else
      var rest := FirstWithSequence(items[1..], s);
      if rest.None? then None else Some(rest.value + 1)
  }

  /** The name of the first item whose sequence is `s`, if there is one. */
  function NameAt(items: seq<Item>, s: string): Option<string> {
    match FirstWithSequence(items, s)
    case None => None
    case Some(k) => Some(items[k].name)
  }

  /** What each level of a non-empty sequence resolves to, root first. */
  function Levels(item: Item, items: seq<Item>): (levels: seq<Option<string>>)
    ensures |levels| == |Parts(item.sequence)|
  {
    var parts := Parts(item.sequence);
    seq(|parts|, i requires 0 <= i < |parts| => NameAt(items, PrefixSequence(parts, i + 1)))
  }

  /** The names `_parse_hierarchy` returns. */
  function HierarchyOf(item: Item, items: seq<Item>): seq<string> {
    if item.sequence == "" then [item.name] else Somes(Levels(item, items))
  }

  /** The inner loop: scan the items for the first one with sequence `s`. */
  method FindName(items: seq<Item>, s: string) returns (r: Option<string>)
    ensures r == NameAt(items, s)
  {
    r := None;
    var k := 0;
    while k < |items|
      invariant 0 <= k <= |items|
      invariant forall j :: 0 <= j < k ==> items[j].sequence != s
    {
      if items[k].sequence == s {
        r := Some(items[k].name);
        return;
      }
      k := k + 1;
    }
  }

  /** `_parse_hierarchy`: an item with an empty sequence yields just its own
      name; otherwise each dot-prefix of its sequence, shortest first,
      contributes the name of the first item at that sequence, if any. */
  method ParseHierarchy(item: Item, items: seq<Item>) returns (hierarchy: seq<string>)
    ensures hierarchy == HierarchyOf(item, items)
  {
    if item.sequence == "" {
      return [item.name];
    }
    var parts := Text.Split(item.sequence, '.');
    ghost var levels := Levels(item, items);
    hierarchy := [];
    for i := 1 to |parts| + 1
      invariant hierarchy == Somes(levels[..i - 1])
    {
      var current := Text.Join(parts[..i], ".");
      var name := FindName(items, current);
      assert current == PrefixSequence(parts, i);
      assert levels[i - 1] == name;
      assert levels[..i][..i - 1] == levels[..i - 1] && levels[..i][i - 1] == name;
      if name.Some? {
        hierarchy := hierarchy + [name.value];
      }
    }
    assert levels[..|parts|] == levels;
  }

  // ---------------------------------------------------------------------------
  // Properties

  /** There is at most one name per level. */
  lemma HierarchyLength(item: Item, items: seq<Item>)
    requires item.sequence != ""
    ensures |HierarchyOf(item, items)| <= |Parts(item.sequence)|
  {
    SomesCount(Levels(item, items));
  }

  /** A name is in the hierarchy exactly when it is the name of the first
      item at one of the prefixes of the sequence. */
  lemma HierarchyMembers(item: Item, items: seq<Item>, name: string)
    requires item.sequence != ""
    ensures name in HierarchyOf(item, items) <==>
      exists i :: 1 <= i <= |Parts(item.sequence)| && NameAt(items, PrefixSequence(Parts(item.sequence), i)) == Some(name)
  {
    var levels := Levels(item, items);
    SomesMembers(levels, name);
    if Some(name) in levels {
      var i :| 0 <= i < |levels| && levels[i] == Some(name);
      assert NameAt(items, PrefixSequence(Parts(item.sequence), i + 1)) == Some(name);
    } else {
      forall i | 1 <= i <= |Parts(item.sequence)|
        ensures NameAt(items, PrefixSequence(Parts(item.sequence), i)) != Some(name)
      {
        assert levels[i - 1] == NameAt(items, PrefixSequence(Parts(item.sequence), i));
      }
    }
  }

  /** When every prefix has an item, the hierarchy has one name per part:
      name `i` is that of the first item at the first `i + 1` parts. */
  lemma HierarchyComplete(item: Item, items: seq<Item>)
    requires item.sequence != ""
    requires forall i :: 1 <= i <= |Parts(item.sequence)| ==>
      exists k :: 0 <= k < |items| && items[k].sequence == PrefixSequence(Parts(item.sequence), i)
    ensures |HierarchyOf(item, items)| == |Parts(item.sequence)|
    ensures forall i :: 0 <= i < |Parts(item.sequence)| ==>
      Some(HierarchyOf(item, items)[i]) == NameAt(items, PrefixSequence(Parts(item.sequence), i + 1))
  {
    var levels := Levels(item, items);
    forall i | 0 <= i < |levels|
      ensures levels[i].Some?
    {
      var prefix := PrefixSequence(Parts(item.sequence), i + 1);
      var k :| 0 <= k < |items| && items[k].sequence == prefix;
      assert FirstWithSequence(items, prefix).Some?;
      assert levels[i] == NameAt(items, prefix);
    }
    SomesAll(levels);
  }

  /** The prefixes grow root to leaf: each one is the previous one, a dot
      and the next part, and the last one is the whole sequence. */
  lemma PrefixesGrow(sequence: string, n: nat)
    requires 1 <= n < |Parts(sequence)|
    ensures PrefixSequence(Parts(sequence), n + 1) == PrefixSequence(Parts(sequence), n) + "." + Parts(sequence)[n]
    ensures PrefixSequence(Parts(sequence), |Parts(sequence)|) == sequence
  {
    var parts := Parts(sequence);
    assert parts[..n + 1] == parts[..n] + [parts[n]];
    Text.JoinAppend(parts[..n], [parts[n]], ".");
    assert parts[..|parts|] == parts;
    Text.JoinSplit(sequence, '.');
  }

  /** An item with a sequence that is itself among the items resolves its
      last level, so the hierarchy ends with the name of the first item at
      that same sequence. */
  lemma LastLevelResolved(item: Item, items: seq<Item>)
    requires item.sequence != "" && item in items
    ensures HierarchyOf(item, items) != []
    ensures HierarchyOf(item, items)[|HierarchyOf(item, items)| - 1] == NameAt(items, item.sequence).value
  {
    var parts := Parts(item.sequence);
    var levels := Levels(item, items);
    Text.JoinSplit(item.sequence, '.');
    assert parts[..|parts|] == parts;
    var k :| 0 <= k < |items| && items[k] == item;
    assert PrefixSequence(parts, |parts|) == item.sequence;
    assert levels[|levels| - 1] == NameAt(items, PrefixSequence(parts, |parts|));
    assert FirstWithSequence(items, item.sequence).Some?;
    assert levels[|levels| - 1].Some?;
  }
}
