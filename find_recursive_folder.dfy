/**
 * `findRecursiveFolderByValue`: look a folder up by value in the folder
 * tree of the picker, tolerating a number-versus-string mismatch.
 */
module FindRecursiveFolder {
  import opened JsValues
  import opened FlattenTree

  /** lines 9-10: `===`, or both truthy with the same string form. */
  predicate ValueMatches(folderValue: JsValue, value: JsValue)
  {
    folderValue == value || (Truthy(folderValue) && Truthy(value) && ToString(folderValue) == ToString(value))
  }

  /** `findRecursiveFolderByValue(folders, value)`: `None` is `undefined`. */
  function FindFolder(folders: seq<TreeNode>, value: JsValue): (r: Option<TreeNode>)
    ensures r.Some? ==> ValueMatches(r.value.value, value)
    decreases folders
  {
    if folders == [] then None
    else
      var folder := folders[0];
      if ValueMatches(folder.value, value) then Some(folder)
      else if folder.children != [] then
        match FindFolder(folder.children, value)
        case Some(found) => Some(found)
        case None => FindFolder(folders[1..], value)
      else FindFolder(folders[1..], value)
  }

  /** Every node of a forest in depth-first pre-order. */
  function Nodes(folders: seq<TreeNode>): (r: seq<TreeNode>)
    decreases folders
  {
    if folders == [] then [] else NodesOf(folders[0]) + Nodes(folders[1..])
  }

  function NodesOf(node: TreeNode): (r: seq<TreeNode>)
    ensures r != [] && r[0] == node
    decreases node
  {
    [node] + Nodes(node.children)
  }

  /** `s[i]` matches and nothing before it does. */
  predicate FirstMatchAt(s: seq<TreeNode>, value: JsValue, i: int)
  {
    0 <= i < |s| && ValueMatches(s[i].value, value) &&
    forall j :: 0 <= j < i ==> !ValueMatches(s[j].value, value)
  }

  /** The first entry of `s` whose value matches: the reference search. */
  function FirstMatch(s: seq<TreeNode>, value: JsValue): (r: Option<TreeNode>)
    ensures r.None? <==> forall i :: 0 <= i < |s| ==> !ValueMatches(s[i].value, value)
    ensures r.Some? ==> exists i :: FirstMatchAt(s, value, i) && s[i] == r.value
  {
    if s == [] then None
    else if ValueMatches(s[0].value, value) then (assert FirstMatchAt(s, value, 0); Some(s[0]))
    else
      var rest := FirstMatch(s[1..], value);
      assert rest.Some? ==> exists i :: FirstMatchAt(s, value, i) && s[i] == rest.value by {
        if rest.Some? {
          var i :| FirstMatchAt(s[1..], value, i) && s[1..][i] == rest.value;
          assert FirstMatchAt(s, value, i + 1);
        }
      }
      rest
  }

  lemma {:induction false} FirstMatchAppend(a: seq<TreeNode>, b: seq<TreeNode>, value: JsValue)
    ensures FirstMatch(a + b, value) == (if FirstMatch(a, value).Some? then FirstMatch(a, value) else FirstMatch(b, value))
    decreases |a|
  {
    if a == [] {
      assert a + b == b;
    } else {
      var ab := a + b;
      assert ab[0] == a[0] && ab[1..] == a[1..] + b;
      if !ValueMatches(a[0].value, value) {
        FirstMatchAppend(a[1..], b, value);
        assert FirstMatch(ab, value) == FirstMatch(a[1..] + b, value);
        assert FirstMatch(a, value) == FirstMatch(a[1..], value);
      }
    }
  }

  /** The search returns the first match of the pre-order listing, and
      `undefined` exactly when no node matches. */
  lemma {:induction false} FindIsFirstInPreOrder(folders: seq<TreeNode>, value: JsValue)
    ensures FindFolder(folders, value) == FirstMatch(Nodes(folders), value)
    decreases folders
  {
    if folders != [] {
      var folder := folders[0];
      FindIsFirstInPreOrder(folder.children, value);
      FindIsFirstInPreOrder(folders[1..], value);
      FirstMatchAppend(NodesOf(folder), Nodes(folders[1..]), value);
      FirstMatchAppend([folder], Nodes(folder.children), value);
      if folder.children == [] {
        assert Nodes(folder.children) == [];
      }
    }
  }

  /** A found folder is a node of the tree. */
  lemma FoundIsInTree(folders: seq<TreeNode>, value: JsValue)
    ensures FindFolder(folders, value).Some? ==> FindFolder(folders, value).value in Nodes(folders)
  {
    FindIsFirstInPreOrder(folders, value);
  }

  /** A number matches its decimal string: 7 finds the folder `'7'`. */
  lemma NumberMatchesString()
    ensures ValueMatches(Str("7"), Num(7)) && ValueMatches(Num(7), Str("7"))
  {
    assert IntToDecimal(7) == "7";
  }

  /** `null` is falsy, so it matches only `null`. */
  lemma NullMatchesOnlyNull(folderValue: JsValue)
    ensures ValueMatches(folderValue, Null) <==> folderValue == Null
  {
  }

  /** The string `'0'` is truthy but `0` is not: they do not match. */
  lemma ZeroDoesNotMatchZeroString()
    ensures !ValueMatches(Num(0), Str("0"))
  {
  }
}
