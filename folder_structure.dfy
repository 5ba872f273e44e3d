/**
 * The folder-structure hook: the server's folder tree turned into the
 * options of the tree picker, under one root entry for the library itself.
 */
module FolderStructure {
  import opened JsValues
  import opened FlattenTree

  /** The list a response holds: the response itself when it is an array,
      else its `data`, `[]` when that is falsy; anything else cannot be
      mapped and throws. */
  function FolderArray(folders: JsValue): (r: Result<seq<JsValue>>)
    ensures folders.Arr? ==> r == Ok(folders.items)
    ensures !folders.Arr? && !Truthy(OptProp(folders, "data")) ==> r == Ok([])
  {
    if folders.Arr? then Ok(folders.items)
    else
      var d := Or(OptProp(folders, "data"), Arr([]));
      if d.Arr? then Ok(d.items) else Err(TYPE_ERROR)
  }

  /** `transformFolderStructure(folders)`: each folder becomes `{value: id,
      label: name, children}`, its children transformed when present. Reading
      `id` of a `null` or `undefined` entry throws. */
  function Transform(folders: JsValue): (r: Result<seq<TreeNode>>)
    ensures r.Ok? ==> FolderArray(folders).Ok? && |r.value| == |FolderArray(folders).value|
    ensures r.Ok? ==> forall i :: 0 <= i < |r.value| ==>
      r.value[i].value == OptProp(FolderArray(folders).value[i], "id") &&
      r.value[i].labelText == OptProp(FolderArray(folders).value[i], "name")
    decreases folders, 1
  {
    match FolderArray(folders)
    case Err(e) => Err(e)
    case Ok(items) => TransformItems(folders, items, 0)
  }

  /** `.map` over `items[i..]`, the elements of `folders`' list. */
  function TransformItems(ghost folders: JsValue, items: seq<JsValue>, i: nat): (r: Result<seq<TreeNode>>)
    requires FolderArray(folders) == Ok(items) && i <= |items|
    ensures r.Ok? ==> |r.value| == |items| - i
    ensures r.Ok? ==> forall j :: 0 <= j < |r.value| ==>
      r.value[j].value == OptProp(items[i + j], "id") && r.value[j].labelText == OptProp(items[i + j], "name")
    decreases folders, 0, |items| - i
  {
    if i == |items| then Ok([])
    else
      var folder := items[i];
      if Nullish(folder) then Err(TYPE_ERROR)
      else
        assert folder < folders by { ItemBelow(folders, items, i); }
        var children := OptProp(folder, "children");
        var sub := if Truthy(children) then ChildrenBelow(folder); Transform(children) else Ok([]);
        match sub
        case Err(e) => Err(e)
        case Ok(kids) =>
          match TransformItems(folders, items, i + 1)
          case Err(e) => Err(e)
          case Ok(rest) => Ok([TreeNode(OptProp(folder, "id"), OptProp(folder, "name"), kids)] + rest)
  }

  /** The list elements lie inside the response value. */
  lemma ItemBelow(folders: JsValue, items: seq<JsValue>, i: nat)
    requires FolderArray(folders) == Ok(items) && i < |items|
    ensures items[i] < folders
  {
    if !folders.Arr? {
      var d := Get(folders.fields, "data");
      assert d < folders;
    }
  }

  /** A property value lies inside its object. */
  lemma ChildrenBelow(folder: JsValue)
    ensures Truthy(OptProp(folder, "children")) ==> OptProp(folder, "children") < folder
  {
  }

  /** The server's encoding of a folder tree: `{id, name, children: [...]}`. */
  function Encode(node: TreeNode): JsValue
    decreases node
  {
    Obj(map["id" := node.value, "name" := node.labelText, "children" := EncodeAll(node.children)])
  }

  function EncodeAll(forest: seq<TreeNode>): (r: JsValue)
    ensures r.Arr? && |r.items| == |forest|
    decreases forest
  {
    if forest == [] then Arr([]) else Arr([Encode(forest[0])] + EncodeAll(forest[1..]).items)
  }

  /** The transform keeps the tree's shape: decoding the encoding of any
      tree gives back the same nodes with the same nesting. */
  lemma {:induction false} TransformEncoded(forest: seq<TreeNode>)
    ensures Transform(EncodeAll(forest)) == Ok(forest)
    decreases forest
  {
    var enc := EncodeAll(forest);
    TransformItemsEncoded(forest, enc.items, 0);
  }

  lemma {:induction false} TransformItemsEncoded(forest: seq<TreeNode>, items: seq<JsValue>, i: nat)
    requires items == EncodeAll(forest).items && i <= |items|
    ensures TransformItems(EncodeAll(forest), items, i) == Ok(forest[i..])
    decreases forest, |items| - i
  {
    if i < |items| {
      assert items[i] == Encode(forest[i]) by { EncodedAt(forest, i); }
      var node := forest[i];
      TransformEncoded(node.children);
      TransformItemsEncoded(forest, items, i + 1);
      assert OptProp(items[i], "id") == node.value;
      assert OptProp(items[i], "name") == node.labelText;
      assert OptProp(items[i], "children") == EncodeAll(node.children);
      assert TreeNode(node.value, node.labelText, node.children) == node;
      assert TransformItems(EncodeAll(forest), items, i) ==
        Ok([TreeNode(node.value, node.labelText, node.children)] + forest[i + 1..]);
      assert forest[i..] == [forest[i]] + forest[i + 1..];
    } else {
      assert |items| == |forest| && forest[i..] == [];
    }
  }

  lemma {:induction false} EncodedAt(forest: seq<TreeNode>, i: nat)
    requires i < |forest|
    ensures EncodeAll(forest).items[i] == Encode(forest[i])
    decreases forest
  {
    if i > 0 {
      EncodedAt(forest[1..], i - 1);
    }
  }

  /** A nullish entry in the list makes the transform throw. */
  lemma NullishEntryThrows(folders: JsValue, i: nat)
    requires FolderArray(folders).Ok? && i < |FolderArray(folders).value|
    requires Nullish(FolderArray(folders).value[i])
    ensures Transform(folders).Err?
  {
    var items := FolderArray(folders).value;
    NullishEntryThrowsFrom(folders, items, 0, i);
  }

  lemma {:induction false} NullishEntryThrowsFrom(folders: JsValue, items: seq<JsValue>, k: nat, i: nat)
    requires FolderArray(folders) == Ok(items) && k <= i < |items| && Nullish(items[i])
    ensures TransformItems(folders, items, k).Err?
    decreases i - k
  {
    if k < i {
      NullishEntryThrowsFrom(folders, items, k + 1, i);
    }
  }

  /** The memoised value (lines 39-54): `undefined` (`None`) before the
      response arrives, then one root entry with value `null`, labelled
      `rootLabel`, over the transformed folders. */
  function FolderStructureData(folderStructure: JsValue, rootLabel: JsValue): (r: Result<Option<seq<TreeNode>>>)
    ensures !Truthy(folderStructure) ==> r == Ok(None)
    ensures Truthy(folderStructure) && Transform(folderStructure).Err? ==> r.Err?
    ensures Truthy(folderStructure) && Transform(folderStructure).Ok? ==>
      r == Ok(Some([TreeNode(Null, rootLabel, Transform(folderStructure).value)]))
  {
    if !Truthy(folderStructure) then Ok(None)
    else match Transform(folderStructure)
      case Err(e) => Err(e)
      case Ok(ts) => Ok(Some([TreeNode(Null, rootLabel, ts)]))
  }

  /** With the root on top, flattening gives the root at depth 0 followed
      by every server folder one level or more below it. */
  lemma RootFirst(forest: seq<TreeNode>, rootLabel: JsValue)
    ensures var flat := Flatten([TreeNode(Null, rootLabel, forest)], Undefined, 0);
      flat[0].value == Null && flat[0].depth == 0 &&
      forall i :: 1 <= i < |flat| ==> flat[i].depth >= 1
  {
    var root := TreeNode(Null, rootLabel, forest);
    FlattenLinked(forest, Null, 1);
    assert Flatten([root], Undefined, 0) == FlattenNode(root, Undefined, 0) + Flatten([], Undefined, 0);
    var inner := Flatten(forest, Null, 1);
    forall i | 0 <= i < |inner|
      ensures inner[i].depth >= 1
    {
      assert LinkedAt(inner, i, Null, 1);
    }
  }
}
