/**
 * `containsAssetFilter`: whether a query filters on a field that only assets
 * have, in which case the folder listing is not requested.
 */
module ContainsAssetFilter {
  import opened JsValues

  /** Top-level filter keys that belong to assets and not to folders. */
  const ASSET_KEYS: set<string> := {"createdAt", "updatedAt", "mime", "name"}

  /** `Object.keys(clause).some(key => ASSET_KEYS.includes(key))`. Keys of a
      nullish clause cannot be listed (TypeError). Arrays and strings only
      have index keys and primitives have none, so they never match. */
  function ClauseMatches(clause: JsValue): (r: Result<bool>)
    ensures r.Err? <==> Nullish(clause)
    ensures r == Ok(true) <==> clause.Obj? && exists k :: k in ASSET_KEYS && k in clause.fields
  {
    match clause
    case Undefined => Err(TYPE_ERROR)
    case Null => Err(TYPE_ERROR)
    case Obj(m) => Ok("createdAt" in m || "updatedAt" in m || "mime" in m || "name" in m)
    case _ => Ok(false)
  }

  predicate HasAssetKey(clause: JsValue)
  {
    ClauseMatches(clause) == Ok(true)
  }

  /** `clauses.some(ClauseMatches)`: stops at the first match; a nullish
      clause reached before any match throws. */
  function SomeClause(clauses: seq<JsValue>): (r: Result<bool>)
    ensures r == Ok(true) <==>
      exists i :: 0 <= i < |clauses| && HasAssetKey(clauses[i]) &&
        forall j :: 0 <= j < i ==> !Nullish(clauses[j])
    ensures r.Err? <==>
      exists i :: 0 <= i < |clauses| && Nullish(clauses[i]) &&
        forall j :: 0 <= j < i ==> !HasAssetKey(clauses[j])
    decreases |clauses|
  {
    if clauses == [] then Ok(false)
    else
      var head := ClauseMatches(clauses[0]);
      if head.Err? then head
      else if head.value then Ok(true)
      else
        var rest := SomeClause(clauses[1..]);
        assert forall i :: 0 < i < |clauses| ==> clauses[i] == clauses[1..][i - 1];
        rest
  }

  /** `containsAssetFilter(query)` */
  function Contains(query: JsValue): (r: Result<bool>)
    ensures var f := OptProp(OptProp(query, "filters"), "$and");
      !f.Arr? ==> r == Ok(false)
    ensures var f := OptProp(OptProp(query, "filters"), "$and");
      f.Arr? ==> r == SomeClause(f.items)
  {
    var filters := OptProp(OptProp(query, "filters"), "$and");
    if !Truthy(filters) || !filters.Arr? then Ok(false) else SomeClause(filters.items)
  }

  /** With no nullish clause the answer is plain: some clause has an asset key. */
  lemma {:induction false} ContainsIff(clauses: seq<JsValue>)
    requires forall i :: 0 <= i < |clauses| ==> !Nullish(clauses[i])
    ensures SomeClause(clauses) == Ok(exists i :: 0 <= i < |clauses| && HasAssetKey(clauses[i]))
  {
    if exists i :: 0 <= i < |clauses| && HasAssetKey(clauses[i]) {
      var i :| 0 <= i < |clauses| && HasAssetKey(clauses[i]);
      assert forall j :: 0 <= j < i ==> !Nullish(clauses[j]);
    } else {
      var r := SomeClause(clauses);
      assert !r.Err?;
      assert r != Ok(true);
      assert r.value == false;
      assert r == Ok(false);
    }
  }

  /** An empty `$and` never counts. */
  lemma EmptyAndIsFalse(query: JsValue)
    requires OptProp(OptProp(query, "filters"), "$and") == Arr([])
    ensures Contains(query) == Ok(false)
  {
  }

  /** A folder-path or parent clause does not count as an asset filter. */
  lemma FolderClausesDoNotCount(v: JsValue)
    ensures !HasAssetKey(Obj(map["folderPath" := v]))
    ensures !HasAssetKey(Obj(map["parent" := v]))
  {
  }
}
