# A Dafny model of the expo-images-picker selection core

This project models the state machine at the centre of the `AssetsSelector`
component of expo-images-picker. It covers:

- cursor-based forward paging of the device media library (`getAssets`, `loadAssets`);
- the click toggle over the ordered list of selected asset ids, bounded by
  `minSelection` and `maxSelection`;
- auto-selection of a page's first asset while the selection is under the floor;
- the preview asset reported to the host after every selection change;
- reconciliation of library-change notifications, where unknown assets are
  merged in at the head of the list;
- the imperative handle, `reloadAssets` and `getSelectedAssets`;
- the export pipeline `prepareResponse` → `manipulateResults` → `resizeImages` /
  `getAssetInfoAsync` → `responseWithResults`;
- the finish gate `handleActionRequest` of the default top navigator.

Modules:

- `Types`: the shared records, such as `Asset`, `PagedInfo`, `ErrorState`,
  `ResizeType` and the settings. It also defines the JavaScript truthiness of
  an optional number.
- `Seqs`: small facts about `indexOf`, `filter(item => item !== id)` and
  duplicate-free sequences.
- `Selection`: the toggle, lookup by id (`Array.prototype.find`), the preview
  and the `getSelectedAssets` projection.
- `Paging`:
  - the request `getAssets` issues;
  - `ApplyPage`, what a settled page fetch does to the list, the selection,
    the cursor and the error;
  - `MergeUpdate`, what the library-update fetch does to the list.
- `Export`:
  - `prepareResponse`, a filter followed by a stable sort by selection
    position, with a reference definition `InSelectionOrder`;
  - the resize options;
  - the per-asset passes, written as loops;
  - `ExportOf`, the outcome of a whole pass;
  - the choice of sink.
- `Navigator`: `handleActionRequest`.
- `Selector`: a class `AssetsSelector` whose fields are the component's state
  hooks. Each handler is a method. A method that awaits a provider call takes
  that call's settled outcome (`Success(value)` or `Failure`) as a parameter.
  The image manipulator and the metadata lookup are function-valued
  parameters. Each method's postcondition ties the new state to the pure
  functions of the modules above, and `Valid()` states the ceiling invariant.

Behaviour kept as the code has it, and proved:

- a page is appended without removing ids that are already loaded
  (`Paging.PageAppendKeepsDuplicates`);
- an empty page always raises `hasNoAssets` (`Paging.PageEmpty`);
- a page whose end cursor equals the stored `after` is dropped. This includes
  a first page whose end cursor is empty (`Paging.FirstPageWithEmptyCursorDropped`);
- auto-selection ignores `maxSelection`. It is guaranteed to stay within the
  ceiling when `minSelection <= maxSelection` (`Paging.ApplyPageKeepsCeiling`).
  With a floor above the ceiling, a selection already at the ceiling is pushed
  over it (`Paging.ApplyPageCanExceedCeiling`);
- `hasError` is never reset by a later success (the monotonicity ensures on
  `ApplyPage` and the methods);
- a negative `minSelection` is truthy, so the navigator blocks an empty
  selection although `0 >= minSelection`
  (`Navigator.GateBlocksEmptyUnderNegativeMinimum`).

Behaviour a reader might expect that the code does not have:

- Paging does not skip ids that are already present.
- `hasNoAssets` is raised for every empty page, also when assets are loaded.
- No success clears an error.
- The picker has a single selection mode. A click on a selected id removes it
  whenever one fewer still meets the floor, whether or not it is the preview.
- With `minSelection = maxSelection = 1`, tapping a second asset keeps the
  first one selected (`Selection.ToggleAtCeiling`); it does not replace it.
- In the metadata pass, the first failing lookup aborts the whole pass. The
  plain selected assets are then delivered and the resizing error is raised;
  no partial results are kept.

## Model

| member | source | states |
|---|---|---|
| Selection.Toggle | src/AssetsSelector.tsx:188-207 | The only id whose membership can change is the clicked one. An unselected id enters exactly when the selection is below the ceiling. A selected id (unique ids) leaves exactly when one fewer still meets the floor. Ids stay unique, the ceiling is kept, and a shrink is by exactly one, never under the floor. |
| Selection.ToggleAppends | src/AssetsSelector.tsx:205 | An unselected id below the ceiling is appended at the end. |
| Selection.ToggleAtCeiling | src/AssetsSelector.tsx:191-194 | An unselected id at or above the ceiling leaves the selection unchanged. |
| Selection.ToggleRemoves | src/AssetsSelector.tsx:196-199 | Clicking `selected[i]` when one fewer meets the floor cuts out exactly position i and keeps the order of the rest. |
| Selection.ToggleAtFloor | src/AssetsSelector.tsx:200-202 | A selected id whose removal would go under the floor leaves the selection unchanged. |
| Selection.Lookup | src/AssetsSelector.tsx:86 | None exactly when no loaded asset has the id. Otherwise the result is a loaded asset with that id, and no earlier asset has that id. |
| Selection.LookupUnique | src/AssetsSelector.tsx:86 | With unique ids, looking up an asset's id finds that asset. |
| Selection.Preview | src/AssetsSelector.tsx:220-228 | Undefined for an empty selection. Otherwise the lookup of the last selected id, which when present is a loaded asset carrying that id. |
| Selection.SelectedAssets | src/AssetsSelector.tsx:85-87 | One entry per selected id, in selection order. An entry is undefined exactly when the id is not loaded. Otherwise it is the first loaded asset with that id. |
| Paging.PlanRequest | src/AssetsSelector.tsx:230-246 | No request without a next page. Without permission, a permission request. Otherwise a fetch of 100 assets of the configured types, sorted by modification time, with `after` only when the stored cursor is non-empty. |
| Paging.ApplyPage | src/AssetsSelector.tsx:131-163 | List and selection only grow at their tails, and the selection by at most one. The list changes exactly when the cursor does, and then to the page's end cursor, which differs from the stored one. The new tail is the non-empty page, and an auto-selected id is the page's first id. Otherwise only the error changes, and `hasError` is never cleared. |
| Paging.PageAppended | src/AssetsSelector.tsx:142-152 | A new non-empty page is appended and advances the cursor to its end cursor and next-page flag. While under the floor, its first id is selected. |
| Paging.PageEmpty | src/AssetsSelector.tsx:135-141 | An empty page only raises `hasNoAssets`, even when assets are loaded. |
| Paging.PageStale | src/AssetsSelector.tsx:142 | A page whose end cursor equals the stored `after` changes nothing. |
| Paging.PageRejected | src/AssetsSelector.tsx:154-160 | A rejected fetch only raises `hasErrorWithLoading`. |
| Paging.ApplyPageIdempotent | src/AssetsSelector.tsx:131-163 | Delivering the same settled fetch twice is the same as delivering it once. |
| Paging.ApplyPageKeepsCeiling | src/AssetsSelector.tsx:150-152 | With `minSelection <= maxSelection`, auto-selection keeps a selection within the ceiling. |
| Paging.ApplyPageCanExceedCeiling | src/AssetsSelector.tsx:150-152 | With a floor above the ceiling, a fresh page pushes a selection that is at the ceiling one over it. |
| Paging.FirstPageAfterReset | src/AssetsSelector.tsx:142-152 | From the reset state, a non-empty page with a non-empty end cursor becomes the whole list. It selects its first id exactly when the floor is positive. |
| Paging.FirstPageWithEmptyCursorDropped | src/AssetsSelector.tsx:142 | From the reset state, a first page whose end cursor is empty is dropped. |
| Paging.PageAppendKeepsDuplicates | src/AssetsSelector.tsx:149 | Appending a page that repeats a loaded asset leaves the list with a duplicate id. |
| Paging.UpdateRequest | src/AssetsSelector.tsx:106-111 | The update fetch asks for 50 assets of the configured types, sorted by modification time, with no cursor. |
| Paging.NewAssets | src/AssetsSelector.tsx:121 | Exactly the fetched assets whose ids are not loaded, in fetched order (a subsequence). Unique fetched ids stay unique. |
| Paging.MergeUpdate | src/AssetsSelector.tsx:114-128 | A rejected or empty fetch changes nothing. Otherwise the result is the new assets in fetched order, followed by the loaded list unchanged. Everything before the loaded list is a fetched asset with an unknown id, and unique ids on both sides stay unique. |
| Paging.MergeKeepsEveryNewAsset | src/AssetsSelector.tsx:121-123 | Every fetched asset whose id is not loaded ends up in the merged list. |
| Paging.MergeOfKnownAssets | src/AssetsSelector.tsx:121-123 | An update that only brings back loaded ids leaves the list as it was. |
| Export.FilterSelected | src/AssetsSelector.tsx:303-307 | Keeps exactly the loaded assets whose id is selected, with their multiplicity. |
| Export.SortByRank | src/AssetsSelector.tsx:308-312 | A permutation (same multiset), ordered by position of the id in the selection. |
| Export.PrepareResponse | src/AssetsSelector.tsx:301-314 | Exactly the selected loaded assets with their multiplicity, ordered by selection position. |
| Export.InSelectionOrder | src/AssetsSelector.tsx:301-314 | Reference order: selected ids walked in order, each mapped to its loaded asset. With unique ids it holds every selected loaded asset, in strictly increasing selection position. |
| Export.PrepareResponseInSelectionOrder | src/AssetsSelector.tsx:301-314 | With unique asset ids and a duplicate-free selection, prepareResponse equals the reference: the loaded part of the selection, in selection order. |
| Export.SaveFormatFor | src/AssetsSelector.tsx:259-263 | PNG exactly when `saveTo` is a non-empty string other than `'jpeg'`. |
| Export.SizeFor | src/AssetsSelector.tsx:265-276 | With neither dimension truthy, the asset's own width and height. Otherwise the given dimensions. |
| Export.SaveOptionsFor | src/AssetsSelector.tsx:282-286 | base64 and compress are passed through, with the save format chosen by `saveTo`. |
| Export.ResizeEntry | src/AssetsSelector.tsx:256-299 | A non-photo or a failed resize gives the asset itself. A resized entry is a photo whose manipulator call returned exactly that image. Every photo whose call succeeds is resized. |
| Export.ResizeEach | src/AssetsSelector.tsx:328-340 | One entry per selected asset, in order, each the resize entry of its asset. The resizing error is raised exactly when some photo's resize fails. |
| Export.FetchInfoEach | src/AssetsSelector.tsx:321-326 | Succeeds exactly when every lookup does, and then with each asset's info in order. |
| Export.Route | src/AssetsSelector.tsx:354-362 | The default sink exactly for source `'default'` with a navigator. The custom sink exactly for another source with a custom navigator. |
| Export.PassFor | src/AssetsSelector.tsx:321-342 | The metadata pass exactly when metadata is wanted and no resize is set. The resize pass exactly when a resize is set. |
| Export.ExportOf | src/AssetsSelector.tsx:316-352 | One entry per selected asset. The plain pass gives the assets unchanged. The resize pass gives each resize entry and raises the error exactly on a failing photo. The metadata pass raises the error exactly when some lookup fails, giving then the plain assets and otherwise each asset's info. |
| Export.ResizePassOutcome | src/AssetsSelector.tsx:328-340 | What the resize loop returns is the outcome of the resize pass. |
| Export.MetadataPassOutcome | src/AssetsSelector.tsx:321-326 | What the metadata loop returns decides the outcome of the metadata pass, including the fallback of lines 343-348. |
| Export.OneFailedResizeOfThree | src/AssetsSelector.tsx:331-338 | With three photos and one failing resize, all three entries remain: the original in the failing slot and resized images elsewhere. The error is raised. |
| Navigator.HandleActionRequest | src/Navigator.tsx:20-25 | At most one call of onSuccess. Always when the minimum is falsy. Never when it is truthy and the count is falsy. Otherwise exactly when the count reaches the minimum. |
| Navigator.GateOnSelectionCount | src/Navigator.tsx:20-25 | For a positive minimum the gate opens exactly when the selection count reaches it. |
| Navigator.GateBlocksEmptyUnderNegativeMinimum | src/Navigator.tsx:21-24 | A negative minimum blocks an empty selection. |
| Selector.AfterPermission | src/AssetsSelector.tsx:165-186 | Permission is granted exactly on a granted status, and a rejected request keeps the old flag. Any outcome other than granted raises the permission error; granted keeps the error. |
| Selector.AssetsSelector.constructor | src/AssetsSelector.tsx:51-75 | Empty selection and list, the initial cursor, no error flag, no permission and no pending update or reload. |
| Selector.AssetsSelector.ReloadAssets | src/AssetsSelector.tsx:78-84 | Empty selection and list, cursor back to its initial value with a next page, and the reload flag raised. |
| Selector.AssetsSelector.GetSelectedAssets | src/AssetsSelector.tsx:85-87 | Returns the projection of the selection onto the loaded assets. |
| Selector.AssetsSelector.OnClick | src/AssetsSelector.tsx:188-207 | The selection becomes its toggle, and the ceiling invariant is kept. |
| Selector.AssetsSelector.OnLibraryChanged | src/AssetsSelector.tsx:92-94 | A change notification raises the pending-update flag. |
| Selector.AssetsSelector.LoadAssets | src/AssetsSelector.tsx:131-163 | The list, selection, cursor and error become `ApplyPage` of the old ones. The ceiling invariant is kept. |
| Selector.AssetsSelector.GetMediaLibraryPermission | src/AssetsSelector.tsx:165-186 | Error and permission flag become `AfterPermission` of the old ones. `hasError` is never cleared. |
| Selector.AssetsSelector.GetAssets | src/AssetsSelector.tsx:230-254 | Dispatches on `PlanRequest`. With no request nothing changes. A fetch applies `ApplyPage` and keeps the permission. A permission request leaves the listing alone and applies `AfterPermission`. |
| Selector.AssetsSelector.SyncLibrary | src/AssetsSelector.tsx:101-129 | Runs exactly when an update is pending and permission is granted. It then clears the flag, issues the update request and applies `MergeUpdate`; otherwise nothing changes. |
| Selector.AssetsSelector.ManipulateResults | src/AssetsSelector.tsx:316-352 | Delivers `ExportOf` of `prepareResponse` under the pass the settings choose, to the sink `source` routes to. It raises the resizing error exactly when that outcome says so, and otherwise keeps the error. |
| Selector.AssetsSelector.PressFinish | src/AssetsSelector.tsx:372-379 | Without a navigator nothing happens. Otherwise results go to the default sink exactly when the gate lets the selection count through. A delivery is `ExportOf` of `prepareResponse` under the pass the settings choose, and raises the resizing error exactly when that outcome says so. A blocked press keeps the error. |

## Left out

- Rendering and layout are not modelled: the grid (`AssetList.tsx`), the
  spinner and `isLoading`, the error display, the navigator chrome, and the
  screen dimensions and column count.
- Hook scheduling is not modelled: when effects run, batching of state
  updates, and stale closures. `loadAssets` is memoised on `assetItems` and may
  read an older `availableOptions` or `selectedItems`. The model always reads
  the current fields. The effects that call `getAssets` on a change of
  permission, media types or `shouldReload`, and `onError`, are left to the
  caller, which invokes `GetAssets`. `shouldReload` is never reset by the
  code, and the model keeps it raised.
- The subscription to library notifications and its removal are not
  modelled; `OnLibraryChanged` models only its callback.
- Console logging is not modelled.
- The `catch` of `getAssets` (lines 247-251) is not modelled. The body cannot
  throw synchronously and the promises it starts are not awaited there.
- The redundant `if (!availableOptions.hasNextPage) return` at line 241 is
  subsumed by the outer check.
- `JSON.parse(JSON.stringify(sizeOptions))` at line 279 is not modelled. It
  drops undefined keys, which `Option` ends up doing anyway.
- Numbers are modelled as mathematical `int` and `real`. JavaScript doubles,
  `NaN` and `NaN`'s falsiness are not modelled.
- Selection.Toggle: the removal statements assume a duplicate-free
  selection. On a list with duplicates, `filter` drops every copy of the id.
  The click handler never creates duplicates, but auto-selection can.
- Selector.AssetsSelector.Valid: the ceiling invariant is claimed only for
  `0 <= minSelection <= maxSelection`. With a floor above the ceiling, the
  code's auto-selection can exceed the ceiling.
- Export.SortByRank: stability of `Array.prototype.sort` is modelled by a
  stable insertion sort. The order of equal ranks (duplicate assets) is not
  stated as a separate property.
- `getAssetInfoAsync`, `manipulateAsync`, `getAssetsAsync` and
  `requestPermissionsAsync` are provider calls. They enter the model as the
  settled outcome or as a total function, so a hung call is not modelled.
- `CustomNavigator.props.onSuccess` with `props` undefined throws a `TypeError`.
  The model treats the presence of a custom navigator as a flag.
- The sinks' own behaviour is not modelled, beyond which sink receives which
  list.
- Concurrent or interleaved completions are not modelled. Each method is one
  completion, applied atomically.
- Modes and long press are not modelled; this version of the code has neither.
- The resize entries are not modelled as objects. A photo entry is
  `{...resizedImage, mediaType}`; when the resize fails it is
  `{...asset, mediaType}`, which the model writes as the original asset.
