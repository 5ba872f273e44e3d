/**
 * The query object of the media library modal and its six change handlers.
 * Every handler but the page change sends the listing back to page 1.
 */
module ModalQueryParams {
  import opened JsValues

  /** lines 21-26 */
  function InitialQuery(folder: JsValue): (q: JsObject)
    ensures q.Keys == {"page", "pageSize", "sort", "folder"}
    ensures Get(q, "page") == Num(1) && Get(q, "pageSize") == Num(20)
    ensures Get(q, "sort") == Str("createdAt:desc") && Get(q, "folder") == folder
  {
    map["page" := Num(1), "pageSize" := Num(20), "sort" := Str("createdAt:desc"), "folder" := folder]
  }

  function FiltersChanged(q: JsObject, filters: JsValue): (r: JsObject)
    ensures Get(r, "filters") == filters && Get(r, "page") == Num(1)
    ensures SameExcept(q, r, {"filters", "page"}) && r.Keys == q.Keys + {"filters", "page"}
  {
    q["filters" := filters]["page" := Num(1)]
  }

  /** The only handler that keeps the rest of the query, page included. */
  function PageChanged(q: JsObject, page: JsValue): (r: JsObject)
    ensures Get(r, "page") == page
    ensures SameExcept(q, r, {"page"}) && r.Keys == q.Keys + {"page"}
  {
    q["page" := page]
  }

  function PageSizeChanged(q: JsObject, pageSize: JsValue): (r: JsObject)
    ensures Get(r, "pageSize") == pageSize && Get(r, "page") == Num(1)
    ensures SameExcept(q, r, {"pageSize", "page"}) && r.Keys == q.Keys + {"pageSize", "page"}
  {
    q["pageSize" := pageSize]["page" := Num(1)]
  }

  function SortChanged(q: JsObject, sort: JsValue): (r: JsObject)
    ensures Get(r, "sort") == sort && Get(r, "page") == Num(1)
    ensures SameExcept(q, r, {"sort", "page"}) && r.Keys == q.Keys + {"sort", "page"}
  {
    q["sort" := sort]["page" := Num(1)]
  }

  /** The search text goes to `_q` as given; the folder is kept. */
  function SearchChanged(q: JsObject, search: JsValue): (r: JsObject)
    ensures Get(r, "_q") == search && Get(r, "page") == Num(1)
    ensures SameExcept(q, r, {"_q", "page"}) && r.Keys == q.Keys + {"_q", "page"}
  {
    q["_q" := search]["page" := Num(1)]
  }

  /** `folderPath` is stored as given, possibly `undefined`, and `_q` is
      left alone. */
  function FolderChanged(q: JsObject, folder: JsValue, folderPath: JsValue): (r: JsObject)
    ensures Get(r, "folder") == folder && Get(r, "folderPath") == folderPath && Get(r, "page") == Num(1)
    ensures SameExcept(q, r, {"folder", "folderPath", "page"})
    ensures r.Keys == q.Keys + {"folder", "folderPath", "page"}
  {
    q["folder" := folder]["folderPath" := folderPath]["page" := Num(1)]
  }

  /** The query keys the initial object sets are never lost. */
  ghost predicate HasBaseKeys(q: JsObject)
  {
    {"page", "pageSize", "sort", "folder"} <= q.Keys
  }

  /** A search does not move the listing to another folder, and a folder
      change keeps the search text. */
  lemma SearchAndFolderIndependent(q: JsObject, search: JsValue, folder: JsValue, folderPath: JsValue)
    ensures Get(SearchChanged(q, search), "folder") == Get(q, "folder")
    ensures Get(SearchChanged(q, search), "folderPath") == Get(q, "folderPath")
    ensures Get(FolderChanged(q, folder, folderPath), "_q") == Get(q, "_q")
  {
    assert "folder" !in {"_q", "page"} && "folderPath" !in {"_q", "page"};
    assert "_q" !in {"folder", "folderPath", "page"};
  }

  /** The state cell and the handlers that rewrite it. */
  class ModalQuery {
    var queryObject: JsObject

    constructor (folder: JsValue)
      ensures queryObject == InitialQuery(folder) && HasBaseKeys(queryObject)
    {
      queryObject := InitialQuery(folder);
    }

    method OnChangeFilters(filters: JsValue)
      modifies this
      ensures queryObject == FiltersChanged(old(queryObject), filters)
      ensures old(HasBaseKeys(queryObject)) ==> HasBaseKeys(queryObject)
    {
      queryObject := FiltersChanged(queryObject, filters);
    }

    method OnChangePage(page: JsValue)
      modifies this
      ensures queryObject == PageChanged(old(queryObject), page)
      ensures old(HasBaseKeys(queryObject)) ==> HasBaseKeys(queryObject)
    {
      queryObject := PageChanged(queryObject, page);
    }

    method OnChangePageSize(pageSize: JsValue)
      modifies this
      ensures queryObject == PageSizeChanged(old(queryObject), pageSize)
      ensures old(HasBaseKeys(queryObject)) ==> HasBaseKeys(queryObject)
    {
      queryObject := PageSizeChanged(queryObject, pageSize);
    }

    method OnChangeSort(sort: JsValue)
      modifies this
      ensures queryObject == SortChanged(old(queryObject), sort)
      ensures old(HasBaseKeys(queryObject)) ==> HasBaseKeys(queryObject)
    {
      queryObject := SortChanged(queryObject, sort);
    }

    method OnChangeSearch(search: JsValue)
      modifies this
      ensures queryObject == SearchChanged(old(queryObject), search)
      ensures old(HasBaseKeys(queryObject)) ==> HasBaseKeys(queryObject)
    {
      queryObject := SearchChanged(queryObject, search);
    }

    method OnChangeFolder(folder: JsValue, folderPath: JsValue)
      modifies this
      ensures queryObject == FolderChanged(old(queryObject), folder, folderPath)
      ensures old(HasBaseKeys(queryObject)) ==> HasBaseKeys(queryObject)
    {
      queryObject := FolderChanged(queryObject, folder, folderPath);
    }
  }
}
