# Media picker plugin: a Dafny model of its admin-side logic

The repository is a custom-field plugin for a content-management admin
panel. It offers a media picker: asset and folder browsing, search, filters
and pagination, a keyed multi-selection, upload from the computer or from
URLs, and editing of asset metadata. Almost all of its code is rendering and
data fetching. This project models the logic underneath: the keyed
selection store, the query-object transitions, the state machines of the
dialogs and their steps, the reconciliation of the selection after an edit
or a delete, the folder-tree helpers, and the type, MIME, pagination and
string helpers.

Each core source file has one Dafny module with the same role:

- A component or hook whose state cells are set by handlers becomes a
  `class`. Each React `useState` cell is a field, each handler is a method
  with a `modifies this` frame, and a `setState` call is an immediate write
  to the field. Examples are `SelectionState.SelectionStore`,
  `ModalQueryParams.ModalQuery` and the `Dialog` classes.
- A loop that updates variables becomes a method with a `while` or `for`
  loop and its invariants. These are `OpenValues.GetOpenValues`,
  `ValuesToClose.GetValuesToClose`, `UrlsToAssets.Partition`,
  `PrefixTranslations.WriteAll` (the `reduce` inside
  `PrefixPluginTranslations`) and `PendingAssetStep.TallyByType`.
- Code that builds its result step by step without a loop becomes a method
  without one. `BreadcrumbData.GetBreadcrumbData` appends crumbs under
  conditions, and `MoveElement.Move` copies the list and performs the two
  `splice` calls as slices.
- A pure expression, map, filter or recursion becomes a function. Its
  reference definition and the lemmas about it sit beside it.

Three support modules describe the JavaScript semantics the code relies on:

- `JsValues` has dynamically typed values, plain objects as string-keyed
  maps, truthiness, `||`, `??`, optional chaining, object spread and
  `String(v)`.
- `Strings` has ASCII `trim`, `split`, `toUpperCase`, `toLowerCase` and the
  first-occurrence `replace`.
- `Seqs` has order-preserving subsequences, `filter` and `map`.

Their lemmas (`Strings.SplitJoin`, `Strings.JoinSplit`,
`Seqs.FilterIsSubsequence` and others) are tools for the properties below.
They do not appear in the table.

Callbacks handed in by a parent component are recorded, not called. Examples
are `onClose`, `onValidate`, `onSelectAssets`, `onAddAsset` and the
notification. A dialog class keeps them as a log field, either a sequence of
calls or a counter, and the methods state exactly what they append.
Answers from the outside world are parameters of the method that receives
them. These are the `window.confirm` answer, the fetched responses, the
settled upload promises, the temporary ids and the clock.

## Model

| member | source | states |
|---|---|---|
| SelectionState.KeyEqIsEquivalence | admin/src/hooks/useSelectionState.ts:25 | Comparing on every key field with `===` is reflexive, symmetric and transitive, so "key-equal" is an equivalence. |
| SelectionState.FindMatch | admin/src/hooks/useSelectionState.ts:24-26 | `findIndex` gives -1 exactly when no element key-matches. Otherwise it gives a key-equal element with no key-equal element before it. |
| SelectionState.Unmatched | admin/src/hooks/useSelectionState.ts:66-75 | The filter is an order-preserving subsequence of the prior list. It keeps every copy of each element that key-matches none of the arguments and no copy of any other element. |
| SelectionState.UnmatchedKeepsAll | admin/src/hooks/useSelectionState.ts:66-75 | When no element matches any argument, the filter returns the list unchanged. |
| SelectionState.UnmatchedNoDup | admin/src/hooks/useSelectionState.ts:66-75 | Filtering a list with no two key-equal elements keeps that property. |
| SelectionState.ToggledSpec | admin/src/hooks/useSelectionState.ts:22-31 | When an element key-equal to the argument exists, selectOne removes every such element and keeps all the others, each copy, in order. Otherwise it appends the argument at the end. |
| SelectionState.ToggleTwice | admin/src/hooks/useSelectionState.ts:22-31 | Toggling an absent item twice restores the original list. |
| SelectionState.ToggledNoDup | admin/src/hooks/useSelectionState.ts:22-31 | selectOne keeps "no two key-equal elements". |
| SelectionState.AllSelectedSpec | admin/src/hooks/useSelectionState.ts:34-44 | selectAll yields the new items first. After them come exactly the prior elements that key-match none of the new items, in their prior order. |
| SelectionState.ConcatNoDup | admin/src/hooks/useSelectionState.ts:54-64 | Two duplicate-free lists, where no element of the second matches the first, concatenate to a duplicate-free list. |
| SelectionState.AllSelectedNoDup | admin/src/hooks/useSelectionState.ts:34-44 | selectAll keeps "no two key-equal elements" when both inputs have it. |
| SelectionState.MatchesSingleton | admin/src/hooks/useSelectionState.ts:22-31 | An element matches the one-element list `[x]` exactly when it is key-equal to `x`. |
| SelectionState.MultipleSelectedSpec | admin/src/hooks/useSelectionState.ts:54-64 | selectMultiple keeps the prior list as a prefix. It appends exactly the new items that key-match no prior element, in their given order. |
| SelectionState.MultipleSelectedNoDup | admin/src/hooks/useSelectionState.ts:54-64 | selectMultiple keeps "no two key-equal elements" when both inputs have it. |
| SelectionState.DeselectedNoDup | admin/src/hooks/useSelectionState.ts:66-75 | deselectMultiple keeps "no two key-equal elements". |
| SelectionState.SelectionStore.constructor | admin/src/hooks/useSelectionState.ts:20 | The single state cell starts as the initial value, holding the given key fields. |
| SelectionState.SelectionStore.SelectOne | admin/src/hooks/useSelectionState.ts:22-32 | The new list is the toggle of the old one. It is a subsequence of the old list when the item matched, and the old list plus the item otherwise. Uniqueness is preserved. |
| SelectionState.SelectionStore.SelectAll | admin/src/hooks/useSelectionState.ts:34-44 | The new items become a prefix, followed by a subsequence of the old list. Uniqueness is preserved. |
| SelectionState.SelectionStore.DeselectAll | admin/src/hooks/useSelectionState.ts:46-48 | The selection becomes empty. |
| SelectionState.SelectionStore.SelectOnly | admin/src/hooks/useSelectionState.ts:50-52 | Whatever the prior state, the selection becomes exactly `[x]`. |
| SelectionState.SelectionStore.SelectMultiple | admin/src/hooks/useSelectionState.ts:54-64 | The old list stays a prefix, followed by a subsequence of the new items. Uniqueness is preserved. |
| SelectionState.SelectionStore.DeselectMultiple | admin/src/hooks/useSelectionState.ts:66-75 | The new list is the unmatched prior elements. Uniqueness is preserved. |
| SelectionState.SelectionStore.SetSelections | admin/src/hooks/useSelectionState.ts:20 | The list is replaced unconditionally. |
| MoveElement.Moved | admin/src/utils/moveElement.ts:8-11 | Reference definition of a move, position by position: the length is kept and the moved entry lands at the target. |
| MoveElement.MovedInPlace | admin/src/utils/moveElement.ts:2-11 | An offset of 0 gives a list equal to the input. |
| MoveElement.MovedBack | admin/src/utils/moveElement.ts:8-11 | Moving back from the target to the source undoes a move. |
| MoveElement.MovedOutside | admin/src/utils/moveElement.ts:10-11 | Entries outside the interval between the index and the target keep their positions. |
| MoveElement.Move | admin/src/utils/moveElement.ts:1-14 | An out-of-range target returns the input unchanged. Otherwise the result is the reference move, which is a permutation of the input. The input sequence is a value, so it is not changed. |
| ContainsAssetFilter.ClauseMatches | admin/src/utils/containsAssetFilter.ts:11 | `Object.keys` throws exactly on a nullish clause. A clause counts exactly when it is an object with one of `createdAt`, `updatedAt`, `mime` or `name` as a key. |
| ContainsAssetFilter.SomeClause | admin/src/utils/containsAssetFilter.ts:10-12 | `some` is true exactly when an asset-keyed clause comes before any nullish clause. It throws exactly when a nullish clause comes first. |
| ContainsAssetFilter.Contains | admin/src/utils/containsAssetFilter.ts:3-14 | The result is false when `filters.$and` is missing or not an array. Otherwise it is the `some` over its clauses. |
| ContainsAssetFilter.ContainsIff | admin/src/utils/containsAssetFilter.ts:10-12 | With no nullish clause, the result is true exactly when some clause has an asset key. |
| ContainsAssetFilter.EmptyAndIsFalse | admin/src/utils/containsAssetFilter.ts:10-14 | An empty `$and` array gives false. |
| ContainsAssetFilter.FolderClausesDoNotCount | admin/src/utils/containsAssetFilter.ts:11 | Clauses keyed by `folderPath` or `parent` alone do not count. |
| AllowedFiles.GetAllowedFiles | admin/src/utils/getAllowedFiles.ts:38-60 | A falsy type list returns the files unchanged. The result is always an order-preserving subsequence. With types given, it keeps every copy of each admitted file and no copy of a file that is not admitted. |
| AllowedFiles.NoFamilyExcluded | admin/src/utils/getAllowedFiles.ts:46-50 | A file whose mime family is empty is never admitted. |
| AllowedFiles.EmptyListAdmitsNothing | admin/src/utils/getAllowedFiles.ts:45-57 | An empty, non-null type list admits no file. |
| AllowedFiles.FilesAdmitsNonMedia | admin/src/utils/getAllowedFiles.ts:52-54 | With `files` in the list, any file with a family other than video, image and audio is admitted. |
| AllowedFiles.SingularListed | admin/src/utils/toSingularTypes.ts:7-18 | A family is in the singularised list exactly when the plural list names it as itself (a plural name never survives) or names it by its plural. |
| AllowedFiles.AdmitsIff | admin/src/utils/getAllowedFiles.ts:45-57 | For every plural type list, a file is admitted exactly when it has a family and either that family is listed, or `file` is listed and the family is not video, image or audio. |
| AllowedFiles.ImagesOnly | admin/src/utils/getAllowedFiles.ts:56 | With only `images`, a file is admitted exactly when its family is `image`. |
| SingularTypes.Singular | admin/src/utils/toSingularTypes.ts:7-18 | The four plural names map to their singulars. Any other value is returned unchanged. |
| SingularTypes.ToSingularTypes | admin/src/utils/toSingularTypes.ts:1-20 | A non-array gives `[]`. An array keeps its length and order, with each element singularised. |
| SingularTypes.SingularIdempotent | admin/src/utils/toSingularTypes.ts:7-18 | Singularising twice is the same as singularising once. |
| SingularTypes.ToSingularTypesIdempotent | admin/src/utils/toSingularTypes.ts:6-19 | Mapping the list twice is the same as mapping it once. |
| RawFileToAsset.AssetTypeOf | admin/src/utils/rawFileToAsset.ts:11-20 | The prefixes `image/`, `video/` and `audio/` are checked in that order. The type is `files` exactly when none applies. |
| RawFileToAsset.ToAsset | admin/src/utils/rawFileToAsset.ts:9-37 | Name, size and mime are copied, and the raw file and source are kept. The fixed fields are local, `''`, `'local'` and `''`. Both timestamps are the given clock value. `ext` is the name after its last dot, or the whole name when it has no dot. |
| RawFileToAsset.FamilyOfPrefix | admin/src/utils/rawFileToAsset.ts:12-16 | A mime starting with `x/` has mime family `x`. |
| RawFileToAsset.AdmittedByOwnType | admin/src/utils/rawFileToAsset.ts:12-20 | A file is admitted when the type list is its own computed asset type. |
| FileExtension.GetFileExtension | admin/src/utils/getFileExtension.ts:1-3 | The result is never empty. It is `FILE` for a missing extension or one that is empty once its first dot is removed. Otherwise it is that remainder upper-cased. |
| FileExtension.EmptyExtensions | admin/src/utils/getFileExtension.ts:2 | Undefined, `''` and `'.'` all give `FILE`. |
| FileExtension.OnlyFirstDotRemoved | admin/src/utils/getFileExtension.ts:2 | Only the first dot is cut out, and later dots stay. |
| FileExtension.LabelIsUpperCase | admin/src/utils/getFileExtension.ts:2 | The label has no lower-case ASCII letter. |
| PrefixFileUrl.Prefix | admin/src/utils/prefixFileUrlWithBackendUrl.ts:1-14 | An empty URL gives undefined. URLs starting with `http://`, `https://` or `//` are returned unchanged, as is any URL when the backend URL is falsy. Any other URL gets the backend URL prepended. |
| PrefixFileUrl.PrefixIdempotent | admin/src/utils/prefixFileUrlWithBackendUrl.ts:7-13 | Prefixing twice equals prefixing once when the backend URL is empty or itself absolute. |
| PrefixTranslations.PrefixedKeyInjective | admin/src/utils/prefixPluginTranslations.ts:13 | Different keys get different prefixed keys. |
| PrefixTranslations.WriteStep | admin/src/utils/prefixPluginTranslations.ts:12-15 | One step of the reduce writes the prefixed key with the key's value and keeps the accumulator invariant. |
| PrefixTranslations.WriteAll | admin/src/utils/prefixPluginTranslations.ts:12-15 | The `reduce` loop, with one round per key, ends with every key of the input written under its prefixed name. |
| PrefixTranslations.AllWritten | admin/src/utils/prefixPluginTranslations.ts:12-15 | Once every key is written, each key `k` appears as `pluginId.k` with the same value. No other key appears, every key starts with `pluginId.`, and the number of keys is the same. |
| PrefixTranslations.PrefixPluginTranslations | admin/src/utils/prefixPluginTranslations.ts:5-16 | An empty plugin id is an error (the TypeError). Otherwise the result maps exactly the prefixed keys to the original values and has as many keys as the input. |
| UrlsToAssets.MimeFor | admin/src/utils/urlsToAssets.ts:3-34 | Every extension the table lists maps to a non-empty MIME type. |
| UrlsToAssets.MimeTypeFromFilename | admin/src/utils/urlsToAssets.ts:45-50 | The lower-cased last dot-segment of the name is looked up in the table. Unknown extensions give `application/octet-stream`, and the result is never empty. |
| UrlsToAssets.JpegAliases | admin/src/utils/urlsToAssets.ts:4-5 | `jpg` and `jpeg` both give `image/jpeg`. |
| UrlsToAssets.TiffAliases | admin/src/utils/urlsToAssets.ts:11-12 | `tif` and `tiff` both give `image/tiff`. |
| UrlsToAssets.UpperCaseExtension | admin/src/utils/urlsToAssets.ts:47 | The extension is lower-cased before lookup, so `PNG` still gives `image/png`. |
| UrlsToAssets.UnknownExtension | admin/src/utils/urlsToAssets.ts:45-50 | Only the last segment counts, and an unknown one gives `application/octet-stream`. |
| UrlsToAssets.FilenameFromPathname | admin/src/utils/urlsToAssets.ts:38-43 | The name is the last segment of the URL path. When that segment is empty it is `download`, the fallback at line 67. It is never empty. |
| UrlsToAssets.ChooseMime | admin/src/utils/urlsToAssets.ts:68 | A non-empty `content-type` header takes precedence over the type derived from the filename. |
| UrlsToAssets.AssetFromResponse | admin/src/utils/urlsToAssets.ts:65-85 | The asset has the derived name, the response URL, the chosen non-empty mime, the extension after the last dot, and the raw file and temporary id given. |
| UrlsToAssets.FailureMessage | admin/src/utils/urlsToAssets.ts:106 | A failure carries the rejection message when it is truthy. Otherwise it carries `Unknown error`, so the message is never empty. |
| UrlsToAssets.PartitionCounts | admin/src/utils/urlsToAssets.ts:96-109 | The successes plus the failures number as many as the URLs. |
| UrlsToAssets.FailureUrlsInOrder | admin/src/utils/urlsToAssets.ts:100-108 | The failure URLs are an order-preserving subsequence of the input URLs. Each is the URL at the index of a rejected result. |
| UrlsToAssets.Partition | admin/src/utils/urlsToAssets.ts:96-111 | The `forEach` loop pushes exactly the fulfilled values and the rejected entries, in input order. Their counts add up to the number of URLs. |
| FromUrlForm.SplitUrls | admin/src/components/MediaExtendedInput/UploadAssetDialog/FromUrlForm.tsx:27-30 | Every URL is a non-empty, trimmed line with no line break. |
| FromUrlForm.SplitUrlsJoin | admin/src/components/MediaExtendedInput/UploadAssetDialog/FromUrlForm.tsx:27-30 | Splitting the newline-joined list of non-empty, trimmed URLs gives back exactly that list, in order. |
| FromUrlForm.ToAdded | admin/src/components/MediaExtendedInput/UploadAssetDialog/FromUrlForm.tsx:48-51 | The asset handed to `onAddAsset` carries the fetched fields, with an empty mime read as absent. |
| FromUrlForm.FetchedMimeKept | admin/src/components/MediaExtendedInput/UploadAssetDialog/FromUrlForm.tsx:48-51 | A fetched asset always reaches `onAddAsset` with its mime. |
| FromUrlForm.UrlForm.constructor | admin/src/components/MediaExtendedInput/UploadAssetDialog/FromUrlForm.tsx:19-20 | The input starts empty and the form is not loading. |
| FromUrlForm.UrlForm.SetUrlInput | admin/src/components/MediaExtendedInput/UploadAssetDialog/FromUrlForm.tsx:19 | Only the text changes. |
| FromUrlForm.UrlForm.HandleSubmit | admin/src/components/MediaExtendedInput/UploadAssetDialog/FromUrlForm.tsx:22-65 | Whitespace-only input does nothing. Otherwise the split URLs are requested and loading is false afterwards. A warning comes exactly when there is a failure, then `onAddAsset` exactly when there is a success. A thrown fetch gives the error notification alone. A settled call reports one success or failure per requested URL. |
| FlattenTree.FlatNode | admin/src/components/MediaExtendedInput/utils/flattenTree.ts:21-29 | `value` and `label` are copied, and the node gets the given parent and depth. `children` is set exactly when the node has non-empty children. |
| FlattenTree.Flatten | admin/src/components/MediaExtendedInput/utils/flattenTree.ts:15-35 | The output has exactly as many entries as the forest has nodes. |
| FlattenTree.FlattenNode | admin/src/components/MediaExtendedInput/utils/flattenTree.ts:28-33 | A node contributes as many entries as its subtree has nodes, starting with its own entry. |
| FlattenTree.ShiftParentEntry | admin/src/components/MediaExtendedInput/utils/flattenTree.ts:30 | An entry whose parent appears earlier in its block still has it earlier after a prefix is put in front. |
| FlattenTree.LinkedAppend | admin/src/components/MediaExtendedInput/utils/flattenTree.ts:20-34 | Concatenating two blocks for the same parent and depth keeps every parent and depth link. |
| FlattenTree.FlattenLinked | admin/src/components/MediaExtendedInput/utils/flattenTree.ts:20-34 | Every entry has either the passed parent with the passed depth, or an earlier entry as its parent and that entry's depth plus one. |
| FlattenTree.FlattenNodeLinked | admin/src/components/MediaExtendedInput/utils/flattenTree.ts:28-31 | The same links hold inside the block of one node. |
| FlattenTree.PreOrder | admin/src/components/MediaExtendedInput/utils/flattenTree.ts:30 | The output is in pre-order. The first node comes first, then its descendants flattened one level deeper with its value as parent, then the remaining siblings. |
| FlattenTree.FlattenedIsRanked | admin/src/components/MediaExtendedInput/utils/flattenTree.ts:15-35 | A root-level flattening with unique, defined values has acyclic parent links: every parent has a smaller depth than its child. |
| OpenValues.FindValue | admin/src/components/MediaExtendedInput/utils/getOpenValues.ts:11 | `find` gives the first entry with that value, or none exactly when no entry has it. |
| OpenValues.GetOpenValues | admin/src/components/MediaExtendedInput/utils/getOpenValues.ts:3-32 | A falsy `value?.value`, or a value not among the options, gives `[]`. Otherwise the loop returns the chain of ancestor values, root first. The selected node itself is excluded, and the walk stops at the first parent missing among the options. |
| OpenValues.AncestorsOfFlattened | admin/src/components/MediaExtendedInput/utils/getOpenValues.ts:17-29 | On a `flattenTree` output the chain has exactly one value per level of the node. Its last value is the node's parent and its first value is a top-level node. |
| OpenValues.NothingToOpen | admin/src/components/MediaExtendedInput/utils/getOpenValues.ts:7-15 | A falsy selection, or one not found, opens nothing. |
| ValuesToClose.ChildrenOf | admin/src/components/MediaExtendedInput/utils/getValuesToClose.ts:13 | The filter is an order-preserving subsequence of the options. It holds every copy of each option whose parent is the given value and nothing else. |
| ValuesToClose.ChildBelowStart | admin/src/components/MediaExtendedInput/utils/getValuesToClose.ts:11-19 | Loop lemma: an option whose parent was already collected lies below the starting value. |
| ValuesToClose.FreshChildren | admin/src/components/MediaExtendedInput/utils/getValuesToClose.ts:13-17 | Loop lemma: the children of the popped value are distinct and not yet collected, and each still counts towards the termination measure. |
| ValuesToClose.StepDistinct | admin/src/components/MediaExtendedInput/utils/getValuesToClose.ts:15-18 | Loop lemma: pushing fresh distinct children keeps both the result and the stack free of repeats. |
| ValuesToClose.StepCovers | admin/src/components/MediaExtendedInput/utils/getValuesToClose.ts:12-18 | Loop lemma: every collected value stays either popped or on the stack. |
| ValuesToClose.StepSound | admin/src/components/MediaExtendedInput/utils/getValuesToClose.ts:15-16 | Loop lemma: every pushed value is a child of a collected value. |
| ValuesToClose.StepPushed | admin/src/components/MediaExtendedInput/utils/getValuesToClose.ts:11-19 | Loop lemma: the children of every popped value have all been collected. |
| ValuesToClose.Step | admin/src/components/MediaExtendedInput/utils/getValuesToClose.ts:11-19 | One round of the loop keeps the invariant. The set of unvisited options shrinks, unless the popped value has no children. |
| ValuesToClose.GetValuesToClose | admin/src/components/MediaExtendedInput/utils/getValuesToClose.ts:3-22 | With acyclic links and unique values the loop ends. The result starts with the value and has no repeats. Every later entry is a child of an earlier one, and every option whose parent is in the result is in it too, so the result is exactly the value and all its descendants. |
| ValuesToClose.Leaf | admin/src/components/MediaExtendedInput/utils/getValuesToClose.ts:8-19 | A value with no children gives `[value]`. |
| FindRecursiveFolder.FindFolder | admin/src/utils/findRecursiveFolderByValue.ts:3-23 | A returned folder matches the target. |
| FindRecursiveFolder.NodesOf | admin/src/utils/findRecursiveFolderByValue.ts:14-19 | The pre-order of a node starts with the node itself. |
| FindRecursiveFolder.FirstMatch | admin/src/utils/findRecursiveFolderByValue.ts:7-20 | Reference definition: there is no result exactly when nothing matches. Otherwise the result is the matching element with no match before it. |
| FindRecursiveFolder.FirstMatchAppend | admin/src/utils/findRecursiveFolderByValue.ts:7-20 | The first match in a concatenation comes from the first part if it has one, and from the second part otherwise. |
| FindRecursiveFolder.FindIsFirstInPreOrder | admin/src/utils/findRecursiveFolderByValue.ts:7-20 | The search returns the first match in depth-first pre-order. |
| FindRecursiveFolder.FoundIsInTree | admin/src/utils/findRecursiveFolderByValue.ts:14-22 | A found folder is a node of the tree. |
| FindRecursiveFolder.NumberMatchesString | admin/src/utils/findRecursiveFolderByValue.ts:9-10 | Truthy values with equal string forms match, so 7 and `'7'` match both ways. |
| FindRecursiveFolder.NullMatchesOnlyNull | admin/src/utils/findRecursiveFolderByValue.ts:9-10 | A null target matches exactly a null value. |
| FindRecursiveFolder.ZeroDoesNotMatchZeroString | admin/src/utils/findRecursiveFolderByValue.ts:10 | 0 is falsy, so 0 and `'0'` do not match. |
| FolderStructure.FolderArray | admin/src/hooks/useFolderStructure.ts:13 | An array is taken as it is. A non-array with a falsy `data` gives `[]`. |
| FolderStructure.Transform | admin/src/hooks/useFolderStructure.ts:11-20 | When it succeeds, the result has one node per folder, whose value is the folder's `id` and whose label is the folder's `name`. |
| FolderStructure.TransformItems | admin/src/hooks/useFolderStructure.ts:15-19 | The `map` over the remaining folders gives one node per folder, with id and name, in order. |
| FolderStructure.ItemBelow | admin/src/hooks/useFolderStructure.ts:13-15 | Each folder is structurally smaller than the input, so the recursion ends. |
| FolderStructure.ChildrenBelow | admin/src/hooks/useFolderStructure.ts:18 | A folder's truthy `children` is structurally smaller than the folder. |
| FolderStructure.EncodeAll | admin/src/hooks/useFolderStructure.ts:15-19 | A forest encoded as the API shape is an array with one entry per tree. |
| FolderStructure.TransformEncoded | admin/src/hooks/useFolderStructure.ts:15-19 | The transform gives back exactly the forest that was encoded, with the same nodes and the same nesting. |
| FolderStructure.TransformItemsEncoded | admin/src/hooks/useFolderStructure.ts:15-19 | The same round trip holds for every suffix of the array. |
| FolderStructure.EncodedAt | admin/src/hooks/useFolderStructure.ts:15-19 | The encoding is position by position. |
| FolderStructure.NullishEntryThrows | admin/src/hooks/useFolderStructure.ts:15-16 | A null or undefined entry makes `folder.id` throw. |
| FolderStructure.NullishEntryThrowsFrom | admin/src/hooks/useFolderStructure.ts:15-16 | The same holds for any suffix that contains such an entry. |
| FolderStructure.FolderStructureData | admin/src/hooks/useFolderStructure.ts:39-54 | Before data arrives the result is undefined. After that it is a single root with value null and the transformed folders as its children. |
| FolderStructure.RootFirst | admin/src/hooks/useFolderStructure.ts:44-53 | Flattening the wrapped tree puts the null root first at depth 0 and every folder deeper. |
| BreadcrumbData.FolderCrumb | admin/src/utils/getBreadcrumbData.ts:33-39 | A folder's crumb carries its id, name and path. |
| BreadcrumbData.GetBreadcrumbData | admin/src/utils/getBreadcrumbData.ts:13-42 | The first crumb is the root with id null, and there are 1 to 3 crumbs. A null folder gives only the root. An object parent adds its crumb before the folder crumb and a numeric parent adds none. A given folder's crumb is last. |
| ModalQueryParams.InitialQuery | admin/src/hooks/useModalQueryParams.ts:21-26 | The first query has exactly page 1, pageSize 20, sort `createdAt:desc` and the given folder. |
| ModalQueryParams.FiltersChanged | admin/src/hooks/useModalQueryParams.ts:29-35 | The query gets the new filters and page 1. Every other field is kept. |
| ModalQueryParams.PageChanged | admin/src/hooks/useModalQueryParams.ts:36-41 | Only `page` changes. |
| ModalQueryParams.PageSizeChanged | admin/src/hooks/useModalQueryParams.ts:42-48 | The query gets the new pageSize and page 1. Every other field is kept. |
| ModalQueryParams.SortChanged | admin/src/hooks/useModalQueryParams.ts:49-55 | The query gets the new sort and page 1. Every other field is kept. |
| ModalQueryParams.SearchChanged | admin/src/hooks/useModalQueryParams.ts:56-62 | The query gets the new `_q` and page 1. Every other field is kept. |
| ModalQueryParams.FolderChanged | admin/src/hooks/useModalQueryParams.ts:63-70 | The query gets the new folder, the folderPath as given (possibly undefined) and page 1. Every other field is kept. |
| ModalQueryParams.SearchAndFolderIndependent | admin/src/hooks/useModalQueryParams.ts:56-70 | A search keeps the folder and folderPath. A folder change keeps `_q`. |
| ModalQueryParams.ModalQuery.constructor | admin/src/hooks/useModalQueryParams.ts:21-26 | The state cell starts as the initial query. |
| ModalQueryParams.ModalQuery.OnChangeFilters | admin/src/hooks/useModalQueryParams.ts:29-35 | The state becomes the filters transition of the old query, and the base fields stay present. |
| ModalQueryParams.ModalQuery.OnChangePage | admin/src/hooks/useModalQueryParams.ts:36-41 | The state becomes the page transition of the old query, and the base fields stay present. |
| ModalQueryParams.ModalQuery.OnChangePageSize | admin/src/hooks/useModalQueryParams.ts:42-48 | The state becomes the pageSize transition of the old query, and the base fields stay present. |
| ModalQueryParams.ModalQuery.OnChangeSort | admin/src/hooks/useModalQueryParams.ts:49-55 | The state becomes the sort transition of the old query, and the base fields stay present. |
| ModalQueryParams.ModalQuery.OnChangeSearch | admin/src/hooks/useModalQueryParams.ts:56-62 | The state becomes the search transition of the old query, and the base fields stay present. |
| ModalQueryParams.ModalQuery.OnChangeFolder | admin/src/hooks/useModalQueryParams.ts:63-70 | The state becomes the folder transition of the old query, and the base fields stay present. |
| BrowseStep.SearchChanged | admin/src/components/MediaExtendedInput/BrowseStep.tsx:133-135 | `_q` becomes the value, with a falsy value mapped to undefined, and page resets to 1. Folder, folderPath and all other fields are kept. |
| BrowseStep.SortChanged | admin/src/components/MediaExtendedInput/BrowseStep.tsx:137-139 | Only `sort` changes, so the page is not reset. |
| BrowseStep.FiltersChanged | admin/src/components/MediaExtendedInput/BrowseStep.tsx:141-143 | Only `filters` changes, so the page is not reset. |
| BrowseStep.PageChanged | admin/src/components/MediaExtendedInput/BrowseStep.tsx:145-147 | Only `page` changes. |
| BrowseStep.PageSizeChanged | admin/src/components/MediaExtendedInput/BrowseStep.tsx:149-151 | The query gets the new pageSize and page 1. Every other field is kept. |
| BrowseStep.ClickFolder | admin/src/components/MediaExtendedInput/BrowseStep.tsx:117-131 | The handlers act only when `onChangeFolder` is given. They first pass on the query with only `_q` cleared, then the folder id and path. |
| BrowseStep.FilteringIffClauses | admin/src/components/MediaExtendedInput/BrowseStep.tsx:114 | With `filters.$and` an array, `isFiltering` holds exactly when it has a clause. |
| BrowseStep.FolderClickStopsSearch | admin/src/components/MediaExtendedInput/BrowseStep.tsx:117-131 | After a folder click the query is not searching. |
| BrowseStep.BulkCheckbox | admin/src/components/MediaExtendedInput/BrowseStep.tsx:203-207 | The box is indeterminate exactly when some but not all page assets are selected. It is checked exactly when all are: page and selection non-empty and every page id selected. |
| BrowseStep.UncheckedIffNoneSelected | admin/src/components/MediaExtendedInput/BrowseStep.tsx:171-180 | The box is unchecked exactly when no page asset is selected. |
| BrowseStep.FolderRow | admin/src/components/MediaExtendedInput/BrowseStep.tsx:155-162 | A folder row has type `folder`, is not selectable and has the folder path as URL. Missing children or files counts default to `{count: 0}`, and all other fields are kept. |
| BrowseStep.AssetRow | admin/src/components/MediaExtendedInput/BrowseStep.tsx:163-168 | An asset row has type `asset`, is selectable and has the asset's folderPath as URL. All other fields are kept. |
| BrowseStep.Rows | admin/src/components/MediaExtendedInput/BrowseStep.tsx:154-169 | All folder rows come first, then all asset rows. The row count is folders plus assets, and a row is selectable exactly when it is an asset row. |
| BrowseStep.SearchHidesAddAction | admin/src/components/MediaExtendedInput/BrowseStep.tsx:266-277 | After a non-empty search the empty state shows no add action. |
| AssetDialog.InitialQuery | admin/src/components/MediaExtendedInput/AssetDialog.tsx:60-66 | The first query has page 1, pageSize 20, sort `name:asc` and the given folder. `folderPath` is `/` exactly when the folder id is falsy, and undefined otherwise. |
| AssetDialog.InitialTab | admin/src/components/MediaExtendedInput/AssetDialog.tsx:67-69 | The first tab is `selected` exactly when the initial selection is non-empty. |
| AssetDialog.AlreadySelected | admin/src/components/MediaExtendedInput/AssetDialog.tsx:114-116 | An order-preserving subsequence of the allowed page assets. It holds every copy of each one whose id is in the selection and nothing else. |
| AssetDialog.SelectAllDeselectsPage | admin/src/components/MediaExtendedInput/AssetDialog.tsx:118-119 | When any allowed page asset is selected, select-all removes every selection that matches an allowed page asset by id. It keeps every copy of the other selections, in order. |
| AssetDialog.SelectAllAppendsPage | admin/src/components/MediaExtendedInput/AssetDialog.tsx:120-122 | When none is selected, select-all appends all allowed page assets. |
| AssetDialog.FolderChangedQuery | admin/src/components/MediaExtendedInput/AssetDialog.tsx:134-140 | The query gets the new folder, page 1 and `_q` cleared. `folderPath` is the given path when truthy, otherwise `/` for a falsy folder and undefined for a truthy one. Sort, pageSize, filters and all other fields are kept. |
| AssetDialog.FoldersEnabled | admin/src/components/MediaExtendedInput/AssetDialog.tsx:89 | Folders are fetched exactly when `canRead` holds, no asset-field filter is present and page is 1. A throwing filter test propagates. |
| AssetDialog.SearchKeepsFoldersEnabled | admin/src/components/MediaExtendedInput/AssetDialog.tsx:88-91 | A text search alone does not change whether folders are fetched. |
| AssetDialog.TargetFolder | admin/src/components/MediaExtendedInput/AssetDialog.tsx:204-210 | The add-folder and add-asset actions pass the query folder when it is a number, and null otherwise. |
| AssetDialog.RemovedById | admin/src/components/MediaExtendedInput/AssetDialog.tsx:267 | The delete filter is an order-preserving subsequence. It keeps every copy of each entry with another id and no entry with the deleted id. |
| AssetDialog.ReplacedById | admin/src/components/MediaExtendedInput/AssetDialog.tsx:270-272 | The update map replaces same-id entries in place. Length and order are unchanged. |
| AssetDialog.ReplaceAbsentIsIdentity | admin/src/components/MediaExtendedInput/AssetDialog.tsx:270-272 | Replacing an id that is not selected changes nothing. |
| AssetDialog.RemoveAbsentIsIdentity | admin/src/components/MediaExtendedInput/AssetDialog.tsx:267 | Removing an id that is not selected changes nothing. |
| AssetDialog.Dialog.constructor | admin/src/components/MediaExtendedInput/AssetDialog.tsx:47-104 | The dialog starts with the initial query, the initial tab, no asset to edit and the initial selection. |
| AssetDialog.Dialog.HandleSelectAsset | admin/src/components/MediaExtendedInput/AssetDialog.tsx:106-108 | In multiple mode the asset is toggled, and in single mode the selection becomes `[asset]`. |
| AssetDialog.Dialog.HandleSelectAllAssets | admin/src/components/MediaExtendedInput/AssetDialog.tsx:110-123 | Nothing changes unless multiple mode is on and results exist. Otherwise the selection follows the select-all choice on the allowed page assets. |
| AssetDialog.Dialog.HandleMoveItem | admin/src/components/MediaExtendedInput/AssetDialog.tsx:125-130 | With the offset `dest - hover`, the entry at `hover` moves to `dest`. The selection stays a permutation, and an out-of-range destination changes nothing. |
| AssetDialog.Dialog.HandleFolderChange | admin/src/components/MediaExtendedInput/AssetDialog.tsx:132-141 | `onChangeFolder` gets the folder id and the query takes the folder-change transition. Nothing else changes. |
| AssetDialog.Dialog.SetQueryObject | admin/src/components/MediaExtendedInput/AssetDialog.tsx:232 | The query passed up by the browse step replaces the query. |
| AssetDialog.Dialog.SetActiveTab | admin/src/components/MediaExtendedInput/AssetDialog.tsx:184 | Only the tab changes. |
| AssetDialog.Dialog.EditAsset | admin/src/components/MediaExtendedInput/AssetDialog.tsx:235 | Only the asset to edit is set. |
| AssetDialog.Dialog.OnValidate | admin/src/components/MediaExtendedInput/AssetDialog.tsx:249-255 | An empty selection calls only `onClose`. Otherwise `onValidate` gets the full ordered selection. |
| AssetDialog.Dialog.OnEditClose | admin/src/components/MediaExtendedInput/AssetDialog.tsx:263-274 | The edit dialog closes. A null result removes every entry with the edited id, and an object result replaces same-id entries in place. Undefined or a boolean leaves the selection unchanged, and the query and tab never change. |
| UseAssets.ParamsExceptFolderPathAndQ | admin/src/hooks/useAssets.ts:19 | The rest of the query has neither `folderPath` nor `_q`, and every other field is kept. |
| UseAssets.ExistingClauses | admin/src/hooks/useAssets.ts:33 | A nullish `$and` counts as no clauses, and an array gives its clauses. |
| UseAssets.AssetParams | admin/src/hooks/useAssets.ts:19-40 | `folderPath` is never sent. With a truthy `_q` the params are the rest plus the encoded `_q`. Otherwise there is no `_q`, and `filters.$and` is the existing clauses followed by one folder-path clause, with other `filters` keys dropped. Spreading a non-iterable `$and` throws. |
| UseAssets.ListingFiltersOnFolderPath | admin/src/hooks/useAssets.ts:28-40 | Without `_q`, the existing clauses stay a prefix and the final clause filters on `folderPath ?? '/'`. |
| UseAssets.SearchIgnoresFolder | admin/src/hooks/useAssets.ts:23-27 | With `_q`, the filters are passed as they are and the folder path has no effect on the params. |
| UseAssets.FetchEnabled | admin/src/hooks/useAssets.ts:49 | No fetch happens when `skipWhen` holds. |
| UseAssets.Normalize | admin/src/hooks/useAssets.ts:58-62 | Nullish `mime` and `ext` become `''`, set values are kept, and all other fields are untouched. |
| UseAssets.NormalizeIdempotent | admin/src/hooks/useAssets.ts:58-62 | Normalising twice is normalising once. |
| UseAssets.NamedResults | admin/src/hooks/useAssets.ts:56-62 | A nullish result throws. Otherwise exactly the results with a truthy `name` are kept, each normalised. |
| UseAssets.NamedResultsKeepOrder | admin/src/hooks/useAssets.ts:56-57 | The kept results are in their original order. |
| UseAssets.NamedResultsOnePass | admin/src/hooks/useAssets.ts:56-62 | Without a nullish entry, the results equal a one-pass reference: each named entry, normalised, every copy, in order. |
| UseAssets.MapSubsequence | admin/src/hooks/useAssets.ts:56-62 | Mapping keeps the subsequence relation. |
| UseAssets.SelectData | admin/src/hooks/useAssets.ts:52-66 | Data without a `results` array is returned as it is. Otherwise only `results` is replaced by the kept, normalised results, and `pagination` and all other fields are untouched. |
| UseAssets.SelectIdempotent | admin/src/hooks/useAssets.ts:52-66 | Applying `select` to its own output changes nothing. |
| UseAssets.SelectFixed | admin/src/hooks/useAssets.ts:52-66 | Data whose results are all named and normalised is a fixed point. |
| UseAssets.NamedResultsFixed | admin/src/hooks/useAssets.ts:56-62 | Results that are all named and normalised are kept as they are. |
| UseFolders.ParamsExceptFolderAndQ | admin/src/hooks/useFolders.ts:19 | The rest of the query has neither `folder` nor `_q`, and every other field is kept. |
| UseFolders.FolderParams | admin/src/hooks/useFolders.ts:19-47 | `folder` is never sent and pageSize is 100 in both branches. With `_q` the params are the rest plus `_q`. Otherwise `$and` is the existing clauses followed by one parent clause. |
| UseFolders.ListingFiltersOnParent | admin/src/hooks/useFolders.ts:30-46 | Without `_q` the last clause filters on the folder id, or on `{$null: true}` (root level) when the folder is nullish. The existing clauses stay a prefix. |
| UseFolders.SearchIgnoresFolder | admin/src/hooks/useFolders.ts:24-29 | With `_q` the folder has no effect and no parent clause is added. |
| PaginationFooter.Range | admin/src/components/MediaExtendedInput/Pagination/PaginationFooter.tsx:35-38 | The range has `max(0, end - start + 1)` entries, `start, start+1, ...`, and is empty for a negative length. |
| PaginationFooter.AsPages | admin/src/components/MediaExtendedInput/Pagination/PaginationFooter.tsx:59-73 | The page numbers become page items one by one. |
| PaginationFooter.Footer | admin/src/components/MediaExtendedInput/Pagination/PaginationFooter.tsx:75-77 | Nothing is rendered exactly when `pageCount <= 1`. Otherwise the computed items are rendered. |
| PaginationFooter.PageNumbersAppend | admin/src/components/MediaExtendedInput/Pagination/PaginationFooter.tsx:59-73 | Taking the numbers of items distributes over concatenation. |
| PaginationFooter.PageNumbersOfPages | admin/src/components/MediaExtendedInput/Pagination/PaginationFooter.tsx:59-73 | The numbers of a list of page items are the list itself. |
| PaginationFooter.IncreasingAppend | admin/src/components/MediaExtendedInput/Pagination/PaginationFooter.tsx:59-73 | Two increasing lists, the first entirely below the second, concatenate to an increasing list. |
| PaginationFooter.NumbersOfItems | admin/src/components/MediaExtendedInput/Pagination/PaginationFooter.tsx:59-73 | The numeric items are 1, the start piece, the sibling range, the end piece and `pageCount`. |
| PaginationFooter.BoundaryPages | admin/src/components/MediaExtendedInput/Pagination/PaginationFooter.tsx:40-41 | For `pageCount >= 2` the items start with page 1 and end with page `pageCount`. |
| PaginationFooter.StartGapRule | admin/src/components/MediaExtendedInput/Pagination/PaginationFooter.tsx:61-65 | The start ellipsis appears exactly when `siblingsStart > 3`. Otherwise page 2 appears when `2 < pageCount - 1`. |
| PaginationFooter.EndGapRule | admin/src/components/MediaExtendedInput/Pagination/PaginationFooter.tsx:67-71 | The end ellipsis appears exactly when `siblingsEnd < pageCount - 2`. Otherwise `pageCount - 1` appears when it is greater than 1. |
| PaginationFooter.PieceFacts | admin/src/components/MediaExtendedInput/Pagination/PaginationFooter.tsx:43-57 | The sibling window lies within `3..pageCount-2`, and each gap piece is empty or the single neighbouring page. The active page is a boundary, in the window or one of those neighbours. |
| PaginationFooter.AssembledIncreasing | admin/src/components/MediaExtendedInput/Pagination/PaginationFooter.tsx:59-73 | The assembled numbers are strictly increasing. |
| PaginationFooter.AssembledBounded | admin/src/components/MediaExtendedInput/Pagination/PaginationFooter.tsx:59-73 | The assembled numbers lie in `1..pageCount`. |
| PaginationFooter.AssembledContains | admin/src/components/MediaExtendedInput/Pagination/PaginationFooter.tsx:59-73 | The assembled numbers include the active page. |
| PaginationFooter.PageNumbersWellFormed | admin/src/components/MediaExtendedInput/Pagination/PaginationFooter.tsx:35-73 | For `1 <= activePage <= pageCount` and `pageCount >= 2`, the numeric items are strictly increasing, lie in `1..pageCount` and include the active page. |
| MediaLibraryInput.AllowedTypesOf | admin/src/components/MediaExtendedInput/MediaLibraryInput.tsx:59 | The allowed types are a truthy option value, otherwise `null`. |
| MediaLibraryInput.MultipleOf | admin/src/components/MediaExtendedInput/MediaLibraryInput.tsx:60 | The field is multiple exactly when `options.multiple` is truthy. |
| MediaLibraryInput.SelectedAssets | admin/src/components/MediaExtendedInput/MediaLibraryInput.tsx:72-78 | An array value is the selection itself, any other truthy value is a one-element selection, and a falsy value is the empty selection. |
| MediaLibraryInput.ValidatedValue | admin/src/components/MediaExtendedInput/MediaLibraryInput.tsx:80-84 | A multiple field stores the whole array. A single field stores the first asset, or `undefined` when there is none. |
| MediaLibraryInput.ValidationRoundTrip | admin/src/components/MediaExtendedInput/MediaLibraryInput.tsx:72-84 | Reading a stored value back gives the validated selection: all of it for a multiple field, the first asset or nothing for a single one. |
| MediaLibraryInput.WithoutId | admin/src/components/MediaExtendedInput/MediaLibraryInput.tsx:113 | The filter is an order-preserving subsequence. It keeps every copy of each asset whose `id` differs from the given one and none with that id. |
| MediaLibraryInput.ReplacingId | admin/src/components/MediaExtendedInput/MediaLibraryInput.tsx:272-274 | The map keeps the length and replaces exactly the assets whose `id` equals the edited asset's. |
| MediaLibraryInput.DeletedValue | admin/src/components/MediaExtendedInput/MediaLibraryInput.tsx:109-121 | Deleting from a single field stores `null`. Deleting from a multiple field stores the remaining assets, or `null` when none remain, and never an empty array. |
| MediaLibraryInput.DeleteRemovesId | admin/src/components/MediaExtendedInput/MediaLibraryInput.tsx:109-121 | After a delete, the selection read back is the old one without the deleted id, or empty for a single field. |
| MediaLibraryInput.NextIndex | admin/src/components/MediaExtendedInput/MediaLibraryInput.tsx:123-125 | "Next" advances by one, wrapping to 0 from the last slide. |
| MediaLibraryInput.PreviousIndex | admin/src/components/MediaExtendedInput/MediaLibraryInput.tsx:127-129 | "Previous" steps back by one, wrapping to the last slide from 0. |
| MediaLibraryInput.CarouselWraps | admin/src/components/MediaExtendedInput/MediaLibraryInput.tsx:123-129 | On a valid index both moves stay in range and undo each other. The last slide goes to the first and the first to the last. |
| MediaLibraryInput.CurrentAsset | admin/src/components/MediaExtendedInput/MediaLibraryInput.tsx:136 | The current asset is the selected one at the index, or `undefined` out of range. |
| MediaLibraryInput.DisplayedLabel | admin/src/components/MediaExtendedInput/MediaLibraryInput.tsx:131-134 | A non-empty multiple selection shows `label (i+1 / n)`. Otherwise the label is shown alone, with the empty string when it is falsy. |
| MediaLibraryInput.PendingFromDrop | admin/src/components/MediaExtendedInput/MediaLibraryInput.tsx:235-247 | A dropped file becomes a local pending asset with the given temporary id. It copies id, name, url, mime, size and rawFile, and copies ext, width and height only when they are truthy. |
| MediaLibraryInput.PendingFromDrops | admin/src/components/MediaExtendedInput/MediaLibraryInput.tsx:235-247 | Every dropped file is converted, position by position. |
| MediaLibraryInput.UploadedSelection | admin/src/components/MediaExtendedInput/MediaLibraryInput.tsx:229-234 | A multiple field appends the uploaded files to the selection. A single field keeps at most the first uploaded file. |
| MediaLibraryInput.SingleUploadKeepsFirst | admin/src/components/MediaExtendedInput/MediaLibraryInput.tsx:229-234 | Uploading into a single field stores the first uploaded file. |
| MediaLibraryInput.EditedValue | admin/src/components/MediaExtendedInput/MediaLibraryInput.tsx:262-277 | A close without an asset changes nothing. A deletion drops the current asset's id, or stores `null` for a single field. An update replaces the matching asset, and a single field stores the first asset after the replacement. |
| MediaLibraryInput.EditKeepsOrder | admin/src/components/MediaExtendedInput/MediaLibraryInput.tsx:270-276 | An update in a multiple field keeps the selection's length, and every asset with another id keeps its position. |
| MediaLibraryInput.Input.constructor | admin/src/components/MediaExtendedInput/MediaLibraryInput.tsx:59-69 | The input starts closed on slide 0 with no folder, no dropped files and no edit, with its options read from the attribute. |
| MediaLibraryInput.Input.HandleValidation | admin/src/components/MediaExtendedInput/MediaLibraryInput.tsx:80-84 | Validation stores the validated value and closes the dialog, and nothing else changes. |
| MediaLibraryInput.Input.HandleAssetDrop | admin/src/components/MediaExtendedInput/MediaLibraryInput.tsx:86-107 | When some dropped files are allowed they are kept and the upload step opens. Otherwise a notice naming the allowed types is raised and nothing else changes. |
| MediaLibraryInput.Input.HandleDeleteAsset | admin/src/components/MediaExtendedInput/MediaLibraryInput.tsx:109-121 | In a multiple field the filter reads `prevAsset.id` and then `asset.id`. It throws a `TypeError` exactly when a selected element is nullish, or when the selection is non-empty and the deleted asset is nullish. A throw changes nothing. Otherwise the delete stores the deleted value and returns to slide 0. |
| MediaLibraryInput.Input.HandleNext | admin/src/components/MediaExtendedInput/MediaLibraryInput.tsx:123-125 | The index becomes the next slide, wrapping around. |
| MediaLibraryInput.Input.HandlePrevious | admin/src/components/MediaExtendedInput/MediaLibraryInput.tsx:127-129 | The index becomes the previous slide, wrapping around. |
| MediaLibraryInput.Input.OpenAssetSelect | admin/src/components/MediaExtendedInput/MediaLibraryInput.tsx:164-182 | Unless the input is disabled, the selection dialog opens. |
| MediaLibraryInput.Input.StartEditing | admin/src/components/MediaExtendedInput/MediaLibraryInput.tsx:165 | Unless the input is disabled, the edit dialog opens. |
| MediaLibraryInput.Input.CloseAssetDialog | admin/src/components/MediaExtendedInput/MediaLibraryInput.tsx:208-211 | Closing the selection dialog clears the step and the folder. |
| MediaLibraryInput.Input.GoTo | admin/src/components/MediaExtendedInput/MediaLibraryInput.tsx:215-216 | The add-asset and add-folder buttons switch to their step, and nothing else changes. |
| MediaLibraryInput.Input.ChangeFolder | admin/src/components/MediaExtendedInput/MediaLibraryInput.tsx:217 | Browsing to a folder records its id. |
| MediaLibraryInput.Input.CloseUploadDialog | admin/src/components/MediaExtendedInput/MediaLibraryInput.tsx:225-228 | Closing the upload dialog returns to selection and forgets the dropped files. |
| MediaLibraryInput.Input.AddUploadedFiles | admin/src/components/MediaExtendedInput/MediaLibraryInput.tsx:229-234 | Uploaded files are validated as the new selection, and the dialog closes. |
| MediaLibraryInput.Input.CloseEditDialog | admin/src/components/MediaExtendedInput/MediaLibraryInput.tsx:262-277 | Closing the edit dialog always clears the editing flag, and stores the edited value when there is one. |
| MediaLibraryDialog.Rendered | admin/src/components/MediaExtendedInput/MediaLibraryDialog.tsx:43 | The dialog renders exactly when it is open or some step is active. |
| MediaLibraryDialog.Apply | admin/src/components/MediaExtendedInput/MediaLibraryDialog.tsx:36-93 | Closing, validating and finishing an upload all clear the step, folder and uploads and report to the caller in order. Opening resets to selection. The sub-dialog buttons change only the step, and browsing changes only the folder. The event log only grows. |
| MediaLibraryDialog.UploadReportsOnlyNewFiles | admin/src/components/MediaExtendedInput/MediaLibraryDialog.tsx:52-62 | Starting from no uploads, after any sequence of actions a finished upload reports exactly the newly uploaded files and then closes. |
| MediaLibraryDialog.Dialog.constructor | admin/src/components/MediaExtendedInput/MediaLibraryDialog.tsx:31-33 | The dialog starts in the selection step with no folder, no uploads and no events. |
| MediaLibraryDialog.Dialog.InitialSelection | admin/src/components/MediaExtendedInput/MediaLibraryDialog.tsx:77 | The selection dialog is seeded with the caller's assets, because the uploaded list stays empty. |
| MediaLibraryDialog.Dialog.Open | admin/src/components/MediaExtendedInput/MediaLibraryDialog.tsx:36-41 | Opening updates the state as `Apply` does for `Open`. |
| MediaLibraryDialog.Dialog.HandleClose | admin/src/components/MediaExtendedInput/MediaLibraryDialog.tsx:45-50 | Closing updates the state as `Apply` does for `Close`. |
| MediaLibraryDialog.Dialog.HandleSelectAssets | admin/src/components/MediaExtendedInput/MediaLibraryDialog.tsx:52-55 | Validating updates the state as `Apply` does for `Validate`. |
| MediaLibraryDialog.Dialog.HandleUploadSuccess | admin/src/components/MediaExtendedInput/MediaLibraryDialog.tsx:57-62 | A finished upload updates the state as `Apply` does for `UploadSuccess`. |
| MediaLibraryDialog.Dialog.AddAsset | admin/src/components/MediaExtendedInput/MediaLibraryDialog.tsx:74 | The button opens the upload step. |
| MediaLibraryDialog.Dialog.AddFolder | admin/src/components/MediaExtendedInput/MediaLibraryDialog.tsx:75 | The button opens the folder step. |
| MediaLibraryDialog.Dialog.BackToSelect | admin/src/components/MediaExtendedInput/MediaLibraryDialog.tsx:84-93 | Closing a sub-dialog returns to the selection step. |
| MediaLibraryDialog.Dialog.ChangeFolder | admin/src/components/MediaExtendedInput/MediaLibraryDialog.tsx:76 | Browsing records the folder. |
| UploadAssetDialog.InitialStep | admin/src/components/MediaExtendedInput/UploadAssetDialog/UploadAssetDialog.tsx:63 | The dialog starts on the pending list exactly when files are handed in. |
| UploadAssetDialog.WithoutFile | admin/src/components/MediaExtendedInput/UploadAssetDialog/UploadAssetDialog.tsx:79 | The filter is an order-preserving subsequence. It keeps every copy of each pending asset whose `rawFile` is not the given file and none whose `rawFile` is. |
| UploadAssetDialog.WithoutAsset | admin/src/components/MediaExtendedInput/UploadAssetDialog/UploadAssetDialog.tsx:125 | The filter is an order-preserving subsequence. It keeps every copy of each pending asset that is not the given object and none that is. |
| UploadAssetDialog.ReplacingIdentical | admin/src/components/MediaExtendedInput/UploadAssetDialog/UploadAssetDialog.tsx:99 | The map keeps the length and replaces exactly the entries identical to the asset being edited. |
| UploadAssetDialog.RemoveAbsent | admin/src/components/MediaExtendedInput/UploadAssetDialog/UploadAssetDialog.tsx:124-127 | Removing an asset that is not in the list leaves the list unchanged. |
| UploadAssetDialog.ReplaceThenRemove | admin/src/components/MediaExtendedInput/UploadAssetDialog/UploadAssetDialog.tsx:97-127 | Removing an edited asset after it replaced the original gives the same list as removing the original. |
| UploadAssetDialog.NeedsConfirmation | admin/src/components/MediaExtendedInput/UploadAssetDialog/UploadAssetDialog.tsx:107 | Closing asks for confirmation exactly when files are still pending. |
| UploadAssetDialog.Dialog.constructor | admin/src/components/MediaExtendedInput/UploadAssetDialog/UploadAssetDialog.tsx:63-65 | The dialog starts on the step chosen by `InitialStep`, with the handed-in files and no edit. |
| UploadAssetDialog.Dialog.AddToPendingAssets | admin/src/components/MediaExtendedInput/UploadAssetDialog/UploadAssetDialog.tsx:67-72 | New files are appended to the pending list, and the pending step opens. |
| UploadAssetDialog.Dialog.MoveToAddAsset | admin/src/components/MediaExtendedInput/UploadAssetDialog/UploadAssetDialog.tsx:74-76 | The add-asset step opens. |
| UploadAssetDialog.Dialog.HandleCancelUpload | admin/src/components/MediaExtendedInput/UploadAssetDialog/UploadAssetDialog.tsx:78-86 | The cancelled file leaves the list, and an empty list returns to the add-asset step. |
| UploadAssetDialog.Dialog.HandleUploadSuccess | admin/src/components/MediaExtendedInput/UploadAssetDialog/UploadAssetDialog.tsx:88-95 | The uploaded file leaves the list, and an empty list closes the dialog once. |
| UploadAssetDialog.Dialog.EditAsset | admin/src/components/MediaExtendedInput/UploadAssetDialog/UploadAssetDialog.tsx:148 | The chosen asset becomes the one being edited. |
| UploadAssetDialog.Dialog.HandleAssetEditValidation | admin/src/components/MediaExtendedInput/UploadAssetDialog/UploadAssetDialog.tsx:97-104 | An edit replaces the asset being edited, no edit changes nothing, and the edit ends either way. |
| UploadAssetDialog.Dialog.HandleClose | admin/src/components/MediaExtendedInput/UploadAssetDialog/UploadAssetDialog.tsx:106-122 | The dialog closes unless files are pending and the user declines the confirmation. |
| UploadAssetDialog.Dialog.HandleRemoveAsset | admin/src/components/MediaExtendedInput/UploadAssetDialog/UploadAssetDialog.tsx:124-127 | The removed asset leaves the pending list. |
| PendingAssetStep.ShowsUploadingCards | admin/src/components/MediaExtendedInput/UploadAssetDialog/PendingAssetStep.tsx:145 | Uploading cards are shown exactly when the upload has started. |
| PendingAssetStep.CardKey | admin/src/components/MediaExtendedInput/UploadAssetDialog/PendingAssetStep.tsx:143 | A card is keyed by its truthy temporary id, otherwise by its id as a string, otherwise by its url. |
| PendingAssetStep.DigitValue | admin/src/components/MediaExtendedInput/UploadAssetDialog/PendingAssetStep.tsx:67 | Each rendered digit parses back to its value. |
| PendingAssetStep.ParseRendered | admin/src/components/MediaExtendedInput/UploadAssetDialog/PendingAssetStep.tsx:66-67 | `parseInt` of a rendered count gives the count back. |
| PendingAssetStep.TallyAt | admin/src/components/MediaExtendedInput/UploadAssetDialog/PendingAssetStep.tsx:56-73 | In a tally, a type that never occurs is falsy and any other type maps to the decimal string of its count. |
| PendingAssetStep.TallyBump | admin/src/components/MediaExtendedInput/UploadAssetDialog/PendingAssetStep.tsx:60-68 | Adding a typed asset raises that type's entry by one and keeps the tally. |
| PendingAssetStep.TallySkip | admin/src/components/MediaExtendedInput/UploadAssetDialog/PendingAssetStep.tsx:64 | An asset without a type leaves the tally unchanged. |
| PendingAssetStep.Bump | admin/src/components/MediaExtendedInput/UploadAssetDialog/PendingAssetStep.tsx:60-68 | For a type seen `c` times so far, the entry becomes the decimal string of `c + 1`. A falsy entry counts as 0, and the entry is stored back as a string. |
| PendingAssetStep.TallyByType | admin/src/components/MediaExtendedInput/UploadAssetDialog/PendingAssetStep.tsx:56-73 | The reduce produces the tally of the assets, counting each type. |
| PendingAssetStep.CountAppend | admin/src/components/MediaExtendedInput/UploadAssetDialog/PendingAssetStep.tsx:56-73 | Counts add up over concatenated lists. |
| PendingAssetStep.UntypedNotCounted | admin/src/components/MediaExtendedInput/UploadAssetDialog/PendingAssetStep.tsx:60-64 | An asset whose type is `undefined` counts towards no type. |
| PendingAssetStep.Step.constructor | admin/src/components/MediaExtendedInput/UploadAssetDialog/PendingAssetStep.tsx:47-50 | The step starts idle, with the finished-upload counter at 0. |
| PendingAssetStep.Step.HandleSubmit | admin/src/components/MediaExtendedInput/UploadAssetDialog/PendingAssetStep.tsx:52-81 | Submitting computes the tally and starts the upload. |
| PendingAssetStep.Step.HandleStatusChange | admin/src/components/MediaExtendedInput/UploadAssetDialog/PendingAssetStep.tsx:83-99 | A success or an error advances the counter. When the counter reaches the number of assets it resets to 0 and the status becomes intermediate. Only a success reports its file. |
| EditAsset.FolderValue | admin/src/hooks/useEditAsset.ts:31-44 | A `null` folder moves the asset to the root, a folder with a truthy id moves it there, and anything else leaves the folder unchanged. |
| EditAsset.FileInfo | admin/src/hooks/useEditAsset.ts:46-55 | Each form field falls back to the asset's own value, and the alt text and caption fall back further to `''`. The folder key is present exactly when the folder changes. |
| EditAsset.EmptyKeepsAssetValue | admin/src/hooks/useEditAsset.ts:46-50 | An empty form keeps the asset's name, and its alt text and caption when they are set. |
| EditAsset.FormParts | admin/src/hooks/useEditAsset.ts:24-28 | The form carries `files` first exactly when a replacement file is present, then the file info. |
| EditAsset.UploadPath | admin/src/hooks/useEditAsset.ts:60 | The request goes to `/upload?id=` followed by the asset id. |
| EditAsset.UpdatedAsset | admin/src/hooks/useEditAsset.ts:62 | The updated asset is the first element of `data` if truthy, otherwise `data` if truthy, otherwise the whole response. |
| EditAsset.ResponseShapes | admin/src/hooks/useEditAsset.ts:62 | All three response shapes yield the same asset. |
| EditAsset.RefetchedQueries | admin/src/hooks/useEditAsset.ts:66-67 | On success, the asset list and the asset count are refetched. |
| EditAssetContent.InitialValues | admin/src/components/MediaExtendedInput/EditAssetDialog/EditAssetContent.tsx:61-65 | The form starts with the asset's name and with its alt text and caption, falling back to `''`. |
| EditAssetContent.Submitted | admin/src/components/MediaExtendedInput/EditAssetDialog/EditAssetContent.tsx:38-47 | The submitted asset keeps every other field. It takes the form's name, and falsy alt text and caption become `null`. |
| EditAssetContent.UntouchedSubmit | admin/src/components/MediaExtendedInput/EditAssetDialog/EditAssetContent.tsx:38-65 | Submitting the untouched form gives back the asset, except that empty alt text or caption become `null`. |
| EditAssetContent.CloseWith | admin/src/components/MediaExtendedInput/EditAssetDialog/EditAssetContent.tsx:25-67 | A cancel closes with no change. Formik's validation runs before the submit: a name that is missing, `null`, empty, an array, a plain object or a host object fails `yup.string().required()`, and the form stays open without calling `onClose`. Any other submit closes with the submitted asset, so an edit happens only when the name rule holds. |
| EditAssetContent.UntouchedSubmitNeedsName | admin/src/components/MediaExtendedInput/EditAssetDialog/EditAssetContent.tsx:25-67 | The untouched form can be submitted exactly when the asset's own name passes the `name` rule. |
| EditAssetContent.EditReplacesInPlace | admin/src/components/MediaExtendedInput/EditAssetDialog/EditAssetContent.tsx:38-47 | After a submit that passes the `name` rule, the edited asset takes the original's place in the pending list, with the submitted fields. |
| EditAssetDialog.FolderData | admin/src/components/MediaExtendedInput/EditAssetDialog.tsx:106-108 | An `undefined` parent value sends no folder, `null` sends the root, and any other value sends `{ id: value }`. |
| EditAssetDialog.FolderSentOnSubmit | admin/src/components/MediaExtendedInput/EditAssetDialog.tsx:106-117 | Combined with the folder rule of the edit request: no parent keeps the folder, `null` moves to the root, and a truthy id moves to that folder. |
| EditAssetDialog.ActiveFolderId | admin/src/components/MediaExtendedInput/EditAssetDialog.tsx:173-178 | The active folder is the truthy id of an object folder, or a numeric folder itself, and otherwise `undefined`. |
| EditAssetDialog.DottedExtension | admin/src/components/MediaExtendedInput/EditAssetDialog.tsx:153-155 | An extension is shown with exactly one leading dot that the source adds, and an absent or empty one is shown as empty. |
| EditAssetDialog.DottedExtensionIdempotent | admin/src/components/MediaExtendedInput/EditAssetDialog.tsx:153-155 | Adding the dot twice is the same as adding it once. |
| EditAssetDialog.CurrentAsset | admin/src/components/MediaExtendedInput/EditAssetDialog.tsx:94 | The fetched asset wins when truthy, otherwise the prop asset is used. |
| EditAssetDialog.ParentLabel | admin/src/components/MediaExtendedInput/EditAssetDialog.tsx:182-193 | The location label is always truthy, and it is "Media Library" without a folder structure. |
| EditAssetDialog.InitialFormData | admin/src/components/MediaExtendedInput/EditAssetDialog.tsx:187-195 | The form holds exactly name, alt text, caption and a parent made of the active folder and its label. |
| EditAssetDialog.SubmitParams | admin/src/components/MediaExtendedInput/EditAssetDialog.tsx:102-120 | Without a current asset nothing is sent. Otherwise the request carries the form's fields, the replacement file, the folder data and the asset. |
| EditAssetDialog.UntouchedFormNeedsName | admin/src/components/MediaExtendedInput/EditAssetDialog.tsx:45-50 | The untouched form passes the `name` rule exactly when the asset's name is a non-empty string, a non-zero number or `true`, because a falsy name starts the field as `''`. |
| EditAssetDialog.UntouchedFormKeepsFolder | admin/src/components/MediaExtendedInput/EditAssetDialog.tsx:187-195 | Submitting the untouched form keeps the asset in its active folder. |
| EditAssetDialog.ToEditResult | admin/src/components/MediaExtendedInput/AssetDialog.tsx:263-273 | A close with `null` is a deletion, a close with an object is an update to that object, and anything else is no change. |
| EditAssetDialog.Dialog.constructor | admin/src/components/MediaExtendedInput/EditAssetDialog.tsx:73 | The dialog starts with no replacement file, no close calls and no requests. |
| EditAssetDialog.Dialog.Reset | admin/src/components/MediaExtendedInput/EditAssetDialog.tsx:82-86 | Opening clears the replacement file. |
| EditAssetDialog.Dialog.HandleSubmit | admin/src/components/MediaExtendedInput/EditAssetDialog.tsx:45-120 | Formik checks `fileInfoSchema` (wired at line 253) before `handleSubmit`. A submit sends one edit request built by `SubmitParams` when the name passes `yup.string().required()` and there is a current asset, and none otherwise. A request is sent only when both hold. |
| EditAssetDialog.Dialog.OnEditSuccess | admin/src/components/MediaExtendedInput/EditAssetDialog.tsx:75-79 | A successful edit clears the replacement file and closes with the updated asset. |
| EditAssetDialog.Dialog.HandleCropFinish | admin/src/components/MediaExtendedInput/EditAssetDialog.tsx:122-129 | A truthy cropped file becomes the replacement and triggers a submit. That submit is `HandleSubmit`, so the `name` rule applies to it as well. |
| EditAssetDialog.Dialog.HandleDelete | admin/src/components/MediaExtendedInput/EditAssetDialog.tsx:139-141 | A delete closes with the deleted asset. |
| EditAssetDialog.Dialog.HandleClose | admin/src/components/MediaExtendedInput/EditAssetDialog.tsx:159-170 | An untouched form closes at once. Otherwise it closes only after confirmation. |

## Left out

- Numbers are unbounded integers. Floating point, `NaN` and non-integer sizes are not modelled, because the picker only handles ids, counts and page numbers.
- Strings are ASCII. `trim`, `toUpperCase` and `toLowerCase` are not modelled on the rest of Unicode.
- Object identity is approximated by structural equality for plain objects, which holds as long as no two distinct objects carry the same fields. Pending upload entries (a `ref` field) and host objects such as a browser `File` (`Ref`) keep real identity.
- A non-string `mime` is read as the empty string. The MIME lookup does not model keys inherited from `Object.prototype`.
- Several outside answers are parameters rather than calls: `new URL`, `fetch` and its settled promises, `Date`, `Math.random`, `encodeURIComponent` and `window.confirm`.
- `formatFileSize` in the edit dialog is not modelled, because it is floating-point display formatting.
- Rendering, the permission hooks and the queries behind `useAsset`, `useFolder` and `useFolderStructure` are not modelled. Their results enter as parameters. The transform and memo of `useFolderStructure` are modelled in folder_structure.dfy.
- Drag and drop, timers, notifications and the modal library are not modelled.
- `trackUsage` is commented out in the pending-asset step, so the tally is computed and returned but nothing consumes it.
- `validateAssetsTypes` is modelled by its default, which calls its callback at once.
- `JSON.stringify(fileInfo)` is modelled as the record itself, since the model does not serialise.
- lodash `isEqual` in the edit dialog's close check is modelled as structural equality of values.
- MoveElement.Move: an in-range target with an out-of-range `index` is not modelled. There `splice` would count from the end or insert `undefined`.
- AssetDialog.Dialog.HandleMoveItem: carries the same precondition as `Move`.
- MediaLibraryInput.PendingFromDrops: requires one temporary id per dropped file, because the ids come from the clock and the random generator.
- MediaLibraryInput.Input.GoTo: covers only the three steps the buttons switch to.
- MediaLibraryInput.Input.CloseEditDialog: reading `.id` of a nullish selected element, which would throw, is not modelled.
- EditAssetDialog.ToEditResult: a truthy close argument that is neither a plain object nor a boolean is treated as no change. That covers a string, a non-zero number, an array (`Arr`) and a host object such as a `File` (`Ref`). The source treats all of these as updates and maps `selectedAssets` with them. An array is reachable: `EditAsset.UpdatedAsset` returns `data` itself when `data` is `[]`.
- EditAssetContent.CloseWith: only the `name` rule of the schema is modelled. The `yup.string()` type checks on `alternativeText` and `caption` are not, and neither is Formik turning `''` into `undefined` before validation, which the name rule already rejects. The form's text inputs only produce strings.
- EditAssetDialog.Dialog.HandleSubmit: only the `name` rule of `fileInfoSchema` is modelled. The `yup.string()` checks on `alternativeText` and `caption` are not, and neither is `folder: yup.number()`, which has no field in the form because the location is `parent`.
- OpenValues.GetOpenValues: requires the options to be ranked (every parent listed before its children), as `flattenTree` produces them from a tree with unique values. On a cyclic parent chain the source loops forever.
- ValuesToClose.GetValuesToClose: requires ranked options with unique values. The order of the result is proved only for its head and the child-after-parent relation, not position by position.
- A missing `children` field is read as an empty list in the folder-tree helpers.
- A non-numeric `length` is not coerced.
- `parseInt` is modelled only on strings of decimal digits, which is all the tally ever produces.
- The pending step's finished-upload counter takes the number of assets as a parameter of the status change, because the component reads it from its props at that moment.
- React state updates are applied at once. Batching and stale closures between two handlers in the same render are not modelled.

## Where the code departs from its description

- Select-all deselects the page's allowed assets whenever any of them is already selected, instead of selecting the rest (`AssetDialog.tsx:118-122`). The model follows the code.
- After an edit or a delete, the asset dialog reconciles only the selection list and not the displayed page (`AssetDialog.tsx:263-274`). The model follows the code.
- The media library dialog's list of uploaded assets is always empty when an upload finishes, because every path that closes the dialog clears it. Accumulation across uploads therefore has no effect, which `MediaLibraryDialog.UploadReportsOnlyNewFiles` states.
