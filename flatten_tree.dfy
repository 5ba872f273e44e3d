/**
 * `flattenTree`: the folder tree of the folder picker, listed in pre-order
 * with each node's depth and parent value.
 */
module FlattenTree {
  import opened JsValues

  /** A folder option (`labelText` is its `label`); a missing `children` is
      the empty list. */
  datatype TreeNode = TreeNode(value: JsValue, labelText: JsValue, children: seq<TreeNode>)

  /** `children` is present exactly when the node had some. */
  datatype FlattenedNode = FlattenedNode(value: JsValue, labelText: JsValue, parent: JsValue,
                                         children: Option<seq<TreeNode>>, depth: int)

  /** Number of nodes in a forest. */
  function ForestSize(data: seq<TreeNode>): nat
    decreases data
  {
    if data == [] then 0 else NodeSize(data[0]) + ForestSize(data[1..])
  }

  function NodeSize(node: TreeNode): nat
    decreases node
  {
    1 + ForestSize(node.children)
  }

  /** The entry of one node, before its descendants. */
  function FlatNode(node: TreeNode, parent: JsValue, depth: int): (f: FlattenedNode)
    ensures f.value == node.value && f.labelText == node.labelText && f.parent == parent && f.depth == depth
    ensures f.children == (if node.children != [] then Some(node.children) else None)
  {
    FlattenedNode(node.value, node.labelText, parent, if node.children != [] then Some(node.children) else None, depth)
  }

  /** `flattenTree(data, parent, depth)`: the `reduce` appends, for each node
      in turn, its entry followed by its flattened children. */
  function Flatten(data: seq<TreeNode>, parent: JsValue, depth: int): (r: seq<FlattenedNode>)
    ensures |r| == ForestSize(data)
    decreases data
  {
    if data == [] then [] else FlattenNode(data[0], parent, depth) + Flatten(data[1..], parent, depth)
  }

  /** One node's block: its entry, then its descendants one level deeper. */
  function FlattenNode(node: TreeNode, parent: JsValue, depth: int): (r: seq<FlattenedNode>)
    ensures |r| == NodeSize(node)
    ensures r[0] == FlatNode(node, parent, depth)
    decreases node
  {
    [FlatNode(node, parent, depth)] + Flatten(node.children, node.value, depth + 1)
  }

  /** An entry one level up, earlier in `r`, whose value is `r[i]`'s parent. */
  ghost predicate HasParentEntry(r: seq<FlattenedNode>, i: int)
    requires 0 <= i < |r|
  {
    exists j :: 0 <= j < i && r[j].value == r[i].parent && r[j].depth == r[i].depth - 1
  }

  /** Entry `i` of a list whose top level is at `depth` under `parent`: at
      least that deep, carrying `parent` when top level, and following its
      parent's entry otherwise. */
  ghost predicate LinkedAt(r: seq<FlattenedNode>, i: int, parent: JsValue, depth: int)
    requires 0 <= i < |r|
  {
    r[i].depth >= depth &&
    (r[i].depth == depth ==> r[i].parent == parent) &&
    (r[i].depth > depth ==> HasParentEntry(r, i))
  }

  ghost predicate Linked(r: seq<FlattenedNode>, parent: JsValue, depth: int)
  {
    forall i :: 0 <= i < |r| ==> LinkedAt(r, i, parent, depth)
  }

  /** A parent entry stays a parent entry when the list is extended in front. */
  lemma ShiftParentEntry(a: seq<FlattenedNode>, b: seq<FlattenedNode>, i: int)
    requires 0 <= i < |b| && HasParentEntry(b, i)
    ensures HasParentEntry(a + b, |a| + i)
  {
    var j :| 0 <= j < i && b[j].value == b[i].parent && b[j].depth == b[i].depth - 1;
    assert (a + b)[|a| + j] == b[j];
    assert (a + b)[|a| + i] == b[i];
  }

  lemma LinkedAppend(a: seq<FlattenedNode>, b: seq<FlattenedNode>, parent: JsValue, depth: int)
    requires Linked(a, parent, depth) && Linked(b, parent, depth)
    ensures Linked(a + b, parent, depth)
  {
    var r := a + b;
    forall i | 0 <= i < |r|
      ensures LinkedAt(r, i, parent, depth)
    {
      if i < |a| {
        assert r[i] == a[i];
        assert LinkedAt(a, i, parent, depth);
        if a[i].depth > depth {
          var j :| 0 <= j < i && a[j].value == a[i].parent && a[j].depth == a[i].depth - 1;
          assert r[j] == a[j];
        }
      } else {
        assert r[i] == b[i - |a|];
        assert LinkedAt(b, i - |a|, parent, depth);
        if b[i - |a|].depth > depth {
          ShiftParentEntry(a, b, i - |a|);
        }
      }
    }
  }

  /** Every flattened forest is linked. */
  lemma {:induction false} FlattenLinked(data: seq<TreeNode>, parent: JsValue, depth: int)
    ensures Linked(Flatten(data, parent, depth), parent, depth)
    decreases data
  {
    if data != [] {
      FlattenNodeLinked(data[0], parent, depth);
      FlattenLinked(data[1..], parent, depth);
      LinkedAppend(FlattenNode(data[0], parent, depth), Flatten(data[1..], parent, depth), parent, depth);
    }
  }

  lemma {:induction false} FlattenNodeLinked(node: TreeNode, parent: JsValue, depth: int)
    ensures Linked(FlattenNode(node, parent, depth), parent, depth)
    decreases node
  {
    var head := [FlatNode(node, parent, depth)];
    var inner := Flatten(node.children, node.value, depth + 1);
    FlattenLinked(node.children, node.value, depth + 1);
    var r := head + inner;
    forall i | 0 <= i < |r|
      ensures LinkedAt(r, i, parent, depth)
    {
      if i > 0 {
        assert r[i] == inner[i - 1];
        assert LinkedAt(inner, i - 1, node.value, depth + 1);
        if inner[i - 1].depth == depth + 1 {
          assert r[0].value == r[i].parent && r[0].depth == r[i].depth - 1;
        } else {
          ShiftParentEntry(head, inner, i - 1);
        }
      }
    }
  }

  /** The first node of a forest is listed first, and its descendants fill
      the block right after it, before its next sibling. */
  lemma PreOrder(data: seq<TreeNode>, parent: JsValue, depth: int)
    requires data != []
    ensures var r := Flatten(data, parent, depth);
      var n := NodeSize(data[0]);
      r[..n] == FlattenNode(data[0], parent, depth) &&
      r[1..n] == Flatten(data[0].children, data[0].value, depth + 1) &&
      r[n..] == Flatten(data[1..], parent, depth)
  {
  }

  /** No two entries share a value. */
  ghost predicate UniqueValues(r: seq<FlattenedNode>)
  {
    forall a, b :: 0 <= a < |r| && 0 <= b < |r| && r[a].value == r[b].value ==> a == b
  }

  /** Values are folder ids or `null`, never `undefined`. */
  ghost predicate DefinedValues(r: seq<FlattenedNode>)
  {
    forall a :: 0 <= a < |r| ==> r[a].value != Undefined
  }

  /** Parent links go strictly up in depth, and depths are never negative
      where a link points: following `parent` cannot cycle. */
  ghost predicate Ranked(r: seq<FlattenedNode>)
  {
    forall a, b :: 0 <= a < |r| && 0 <= b < |r| && r[b].value == r[a].parent ==> 0 <= r[b].depth < r[a].depth
  }

  /** A root-level flattening (`flattenTree(data)`: no parent, depth 0) with
      unique, defined values has acyclic parent links. */
  lemma FlattenedIsRanked(data: seq<TreeNode>)
    requires UniqueValues(Flatten(data, Undefined, 0)) && DefinedValues(Flatten(data, Undefined, 0))
    ensures Ranked(Flatten(data, Undefined, 0))
  {
    var r := Flatten(data, Undefined, 0);
    FlattenLinked(data, Undefined, 0);
    forall a, b | 0 <= a < |r| && 0 <= b < |r| && r[b].value == r[a].parent
      ensures 0 <= r[b].depth < r[a].depth
    {
      assert LinkedAt(r, a, Undefined, 0) && LinkedAt(r, b, Undefined, 0);
      assert r[a].depth > 0;
      var j :| 0 <= j < a && r[j].value == r[a].parent && r[j].depth == r[a].depth - 1;
      assert j == b;
    }
  }
}
