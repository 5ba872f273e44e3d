/**
 * `getBreadcrumbData`: the breadcrumb trail above the assets of a folder:
 * the library root, the folder's parent when the server sent it populated,
 * and the folder itself.
 */
module BreadcrumbData {
  import opened JsValues

  /** `parent` as the server sends it: absent, an id, or populated. */
  datatype ParentRef =
    | NoParent
    | ParentId(n: int)
    | ParentFolder(id: int, name: string, path: Option<string>)

  datatype Folder = Folder(id: int, name: string, path: string, parent: ParentRef)

  /** A crumb label: a translation message (key before plugin prefixing)
      or a folder name. */
  datatype CrumbLabel = Message(key: string, defaultMessage: string) | Text(text: string)

  /** `{id, label, path}` (`caption` is the label); `id: None` is `null`, `path: None` is absent. */
  datatype Crumb = Crumb(id: Option<int>, caption: CrumbLabel, path: Option<string>)

  const ROOT_CRUMB := Crumb(None, Message("plugin.name", "Media Library"), None)

  /** The crumb of a folder; its id is never `null`. */
  function FolderCrumb(folder: Folder): (c: Crumb)
    ensures c.id == Some(folder.id) && c.caption == Text(folder.name) && c.path == Some(folder.path)
  {
    Crumb(Some(folder.id), Text(folder.name), Some(folder.path))
  }

  /** `getBreadcrumbData(folder)`, with `None` for `null`. */
  method GetBreadcrumbData(folder: Option<Folder>) returns (data: seq<Crumb>)
    ensures 1 <= |data| <= 3 && data[0] == ROOT_CRUMB
    ensures folder.None? ==> data == [ROOT_CRUMB]
    ensures folder.Some? ==> data[|data| - 1] == FolderCrumb(folder.value)
    ensures folder.Some? && folder.value.parent.ParentFolder? ==>
      var p := folder.value.parent;
      data == [ROOT_CRUMB, Crumb(Some(p.id), Text(p.name), p.path), FolderCrumb(folder.value)]
    ensures folder.Some? && !folder.value.parent.ParentFolder? ==> data == [ROOT_CRUMB, FolderCrumb(folder.value)]
    ensures forall i :: 1 <= i < |data| ==> data[i].id.Some?
  {
    data := [ROOT_CRUMB];
    if folder.Some? && folder.value.parent.ParentFolder? {
      var p := folder.value.parent;
      data := data + [Crumb(Some(p.id), Text(p.name), p.path)];
    }
    if folder.Some? {
      var f := folder.value;
      data := data + [Crumb(Some(f.id), Text(f.name), Some(f.path))];
    }
  }
}
