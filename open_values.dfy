/**
 * `getOpenValues`: the folders to expand in the tree picker so that the
 * selected folder is visible, i.e. its ancestors, root first.
 */
module OpenValues {
  import opened JsValues
  import opened FlattenTree

  /** `options.find(option => option.value === v)`, as an index. */
  function FindValue(options: seq<FlattenedNode>, v: JsValue): (r: Option<nat>)
    ensures r.None? <==> forall k :: 0 <= k < |options| ==> options[k].value != v
    ensures r.Some? ==> r.value < |options| && options[r.value].value == v
    ensures r.Some? ==> forall k :: 0 <= k < r.value ==> options[k].value != v
  {
    if options == [] then None
    else if options[0].value == v then Some(0)
    else match FindValue(options[1..], v)
      case None => None
      case Some(k) => Some(k + 1)
  }

  /** The values met walking up `parent` links from entry `i`, root first;
      the walk ends at an entry without parent or whose parent is not among
      the options. */
  ghost function Ancestors(options: seq<FlattenedNode>, i: nat): seq<JsValue>
    requires Ranked(options) && i < |options|
    decreases options[i].depth
  {
    if options[i].parent == Undefined then []
    else match FindValue(options, options[i].parent)
      case None => []
      case Some(j) => Ancestors(options, j) + [options[j].value]
  }

  /** What `getOpenValues(options, selected)` returns. */
  ghost function OpenValues(options: seq<FlattenedNode>, selected: JsValue): seq<JsValue>
    requires Ranked(options)
  {
    var target := OptProp(selected, "value");
    if !Truthy(target) then []
    else match FindValue(options, target)
      case None => []
      case Some(i) => Ancestors(options, i)
  }

  /** The walk of lines 17-29: `current` climbs one parent per round and
      each parent value is put in front. */
  method GetOpenValues(options: seq<FlattenedNode>, selected: JsValue) returns (r: seq<JsValue>)
    requires Ranked(options)
    ensures r == OpenValues(options, selected)
  {
    var target := OptProp(selected, "value");
    if !Truthy(target) {
      return [];
    }
    var found := FindValue(options, target);
    if found.None? {
      return [];
    }
    var start := found.value;
    var current: nat := start;
    r := [];
    while options[current].parent != Undefined
      invariant current < |options|
      invariant Ancestors(options, start) == Ancestors(options, current) + r
      decreases options[current].depth
    {
      var parent := FindValue(options, options[current].parent);
      if parent.Some? {
        AncestorsStep(options, current, parent.value, r);
        r := [options[parent.value].value] + r;
        current := parent.value;
      } else {
        break;
      }
    }
  }

  /** One round of the walk: climbing to the parent moves its value from
      the unexplored part of the chain to the front of the collected part. */
  lemma AncestorsStep(options: seq<FlattenedNode>, current: nat, j: nat, r: seq<JsValue>)
    requires Ranked(options) && current < |options|
    requires options[current].parent != Undefined
    requires FindValue(options, options[current].parent) == Some(j)
    ensures j < |options|
    ensures Ancestors(options, current) + r == Ancestors(options, j) + ([options[j].value] + r)
  {
    assert Ancestors(options, current) == Ancestors(options, j) + [options[j].value];
  }

  /** On a root-level flattening with unique values the walk reaches the
      top: one ancestor per level, the last being the node's own parent,
      and each one the parent of the next. */
  lemma {:induction false} AncestorsOfFlattened(data: seq<TreeNode>, i: nat)
    requires UniqueValues(Flatten(data, Undefined, 0)) && DefinedValues(Flatten(data, Undefined, 0))
    requires i < |Flatten(data, Undefined, 0)|
    ensures Ranked(Flatten(data, Undefined, 0))
    ensures var options := Flatten(data, Undefined, 0);
      var a := Ancestors(options, i);
      |a| == options[i].depth &&
      (|a| > 0 ==> a[|a| - 1] == options[i].parent) &&
      (|a| > 0 ==> exists j :: 0 <= j < |options| && options[j].value == a[0] && options[j].depth == 0)
    decreases Flatten(data, Undefined, 0)[i].depth
  {
    var options := Flatten(data, Undefined, 0);
    FlattenedIsRanked(data);
    FlattenLinked(data, Undefined, 0);
    assert LinkedAt(options, i, Undefined, 0);
    if options[i].depth > 0 {
      var j :| 0 <= j < i && options[j].value == options[i].parent && options[j].depth == options[i].depth - 1;
      assert options[i].parent != Undefined;
      var f := FindValue(options, options[i].parent);
      assert f == Some(j);
      AncestorsOfFlattened(data, j);
      if options[j].depth == 0 {
        assert Ancestors(options, j) == [];
      }
    }
  }

  /** A falsy selection, or one missing from the options, opens nothing. */
  lemma NothingToOpen(options: seq<FlattenedNode>, selected: JsValue)
    requires Ranked(options)
    requires !Truthy(OptProp(selected, "value")) ||
      forall k :: 0 <= k < |options| ==> options[k].value != OptProp(selected, "value")
    ensures OpenValues(options, selected) == []
  {
  }
}
