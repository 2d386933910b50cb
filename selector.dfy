/** The AssetsSelector component as one sequential state object: its state
    hooks become fields, and each handler becomes a method that receives the
    outcome of the provider call it awaits. */
module Selector {
  import opened Types
  import opened Seqs
  import Selection
  import Paging
  import Export
  import Navigator

  datatype PermissionStatus = Granted | Denied | Undetermined

  /** A call of a result sink with the list it receives. */
  datatype Delivery = Delivery(sink: Export.Sink, results: seq<Export.ExportItem>)

  /** A floor no higher than the ceiling, neither negative. */
  predicate WellConfigured(settings: Settings)
  {
    0 <= settings.minSelection <= settings.maxSelection
  }

  /** The error and permission flag after the permission request settles:
      only a granted status grants, and anything else raises the
      permission error. A rejected request keeps the flag. */
  function AfterPermission(error: ErrorState, hasPermission: bool, outcome: Outcome<PermissionStatus>): (r: (ErrorState, bool))
    ensures r.1 <==> outcome == Success(Granted) || (outcome.Failure? && hasPermission)
    ensures outcome == Success(Granted) ==> r.0 == error
    ensures outcome != Success(Granted) ==> r.0 == ErrorState(true, HasErrorWithPermissions)
  {
    match outcome
    case Failure => (ErrorState(true, HasErrorWithPermissions), hasPermission)
    case Success(status) =>
      var granted := status == Granted;
      (if !granted then ErrorState(true, HasErrorWithPermissions) else error, granted)
  }

  class AssetsSelector {
    const settings: Settings
    const resize: Option<ResizeType>
    const navigator: Option<NavigatorProps>
    const hasCustomNavigator: bool

    var selectedItems: seq<string>
    var assetItems: seq<Asset>
    var availableOptions: PagedInfo
    var error: ErrorState
    var hasMediaLibraryPermission: bool
    var hasLibraryUpdates: bool
    var shouldReload: bool

    /** Under a consistent configuration the selection never exceeds the ceiling. */
    ghost predicate Valid()
      reads this
    {
      WellConfigured(settings) ==> |selectedItems| <= settings.maxSelection
    }

    /** The fields a page completion writes. */
    function Listing(): Paging.Listing
      reads this
    {
      Paging.Listing(assetItems, selectedItems, availableOptions, error)
    }

    constructor (settings: Settings, resize: Option<ResizeType>, navigator: Option<NavigatorProps>, hasCustomNavigator: bool)
      ensures Valid()
      ensures this.settings == settings && this.resize == resize
      ensures this.navigator == navigator && this.hasCustomNavigator == hasCustomNavigator
      ensures selectedItems == [] && assetItems == []
      ensures availableOptions == Paging.INITIAL_AVAILABLE_OPTIONS
      ensures error == ErrorState(false, HasErrorWithPermissions)
      ensures !hasMediaLibraryPermission && !hasLibraryUpdates && !shouldReload
    {
      this.settings := settings;
      this.resize := resize;
      this.navigator := navigator;
      this.hasCustomNavigator := hasCustomNavigator;
      selectedItems := [];
      assetItems := [];
      availableOptions := Paging.INITIAL_AVAILABLE_OPTIONS;
      error := ErrorState(false, HasErrorWithPermissions);
      hasMediaLibraryPermission := false;
      hasLibraryUpdates := false;
      shouldReload := false;
    }

    /** reloadAssets: empty selection and list, cursor back to its initial
      value, and the reload flag raised for the effect that calls getAssets. */
    method ReloadAssets()
      requires Valid()
      modifies this`selectedItems, this`assetItems, this`availableOptions, this`shouldReload
      ensures Valid()
      ensures selectedItems == [] && assetItems == []
      ensures availableOptions == Paging.INITIAL_AVAILABLE_OPTIONS
      ensures availableOptions.after == "" && availableOptions.hasNextPage
      ensures shouldReload
    {
      selectedItems := [];
      assetItems := [];
      availableOptions := Paging.INITIAL_AVAILABLE_OPTIONS;
      shouldReload := true;
    }

    /** getSelectedAssets. */
    method GetSelectedAssets() returns (r: seq<Option<Asset>>)
      ensures |r| == |selectedItems|
      ensures r == Selection.SelectedAssets(assetItems, selectedItems)
    {
      r := Selection.SelectedAssets(assetItems, selectedItems);
    }

    /** A click on a grid item. */
    method OnClick(id: string)
      requires Valid()
      modifies this`selectedItems
      ensures Valid()
      ensures selectedItems == Selection.Toggle(old(selectedItems), id, settings.minSelection, settings.maxSelection)
    {
      selectedItems := Selection.Toggle(selectedItems, id, settings.minSelection, settings.maxSelection);
    }

    /** The listener callback of the media library: a change was signalled. */
    method OnLibraryChanged()
      modifies this`hasLibraryUpdates
      ensures hasLibraryUpdates
    {
      hasLibraryUpdates := true;
    }

    /** loadAssets, once getAssetsAsync has settled with `outcome`. */
    method LoadAssets(outcome: Outcome<Paging.AssetPage>)
      requires Valid()
      modifies this`assetItems, this`selectedItems, this`availableOptions, this`error
      ensures Valid()
      ensures Listing() == Paging.ApplyPage(old(Listing()), outcome, settings.minSelection)
    {
      if WellConfigured(settings) {
        Paging.ApplyPageKeepsCeiling(Listing(), outcome, settings.minSelection, settings.maxSelection);
      }
      match outcome
      case Failure =>
        error := ErrorState(true, HasErrorWithLoading);
      case Success(page) =>
        if |page.assets| <= 0 {
          error := ErrorState(true, HasNoAssets);
          return;
        }
        if availableOptions.after == page.endCursor {
          return;
        }
        availableOptions := availableOptions.(after := page.endCursor, hasNextPage := page.hasNextPage);
        assetItems := assetItems + page.assets;
        if |selectedItems| < settings.minSelection {
          selectedItems := selectedItems + [page.assets[0].id];
        }
    }

    /** getMediaLibraryPermission, once the permission request has settled. */
    method GetMediaLibraryPermission(outcome: Outcome<PermissionStatus>)
      modifies this`error, this`hasMediaLibraryPermission
      ensures (error, hasMediaLibraryPermission) == AfterPermission(old(error), old(hasMediaLibraryPermission), outcome)
      ensures old(error).hasError ==> error.hasError
    {
      match outcome
      case Failure =>
        error := ErrorState(true, HasErrorWithPermissions);
      case Success(status) =>
        if status != Granted {
          error := ErrorState(true, HasErrorWithPermissions);
        }
        hasMediaLibraryPermission := status == Granted;
    }

    /** getAssets: page forward when there is a next page and permission,
      ask for permission when there is a next page and none; `page` and
      `permission` are what the call it starts settles to. */
    method GetAssets(page: Outcome<Paging.AssetPage>, permission: Outcome<PermissionStatus>)
        returns (request: Paging.Request)
      requires Valid()
      modifies this`assetItems, this`selectedItems, this`availableOptions, this`error, this`hasMediaLibraryPermission
      ensures Valid()
      ensures request == Paging.PlanRequest(old(availableOptions), old(hasMediaLibraryPermission), settings.assetsType)
      ensures request.NoRequest? ==> Listing() == old(Listing()) && hasMediaLibraryPermission == old(hasMediaLibraryPermission)
      ensures request.FetchPage? ==>
                Listing() == Paging.ApplyPage(old(Listing()), page, settings.minSelection)
                && hasMediaLibraryPermission == old(hasMediaLibraryPermission)
      ensures request.AskPermission? ==>
                assetItems == old(assetItems) && selectedItems == old(selectedItems)
                && availableOptions == old(availableOptions)
                && (error, hasMediaLibraryPermission) == AfterPermission(old(error), old(hasMediaLibraryPermission), permission)
      ensures old(error).hasError ==> error.hasError
    {
      request := Paging.PlanRequest(availableOptions, hasMediaLibraryPermission, settings.assetsType);
      match request
      case NoRequest =>
      case AskPermission =>
        GetMediaLibraryPermission(permission);
      case FetchPage(_) =>
        LoadAssets(page);
    }

    /** The library-update effect: when an update was signalled and
      permission is granted, clear the signal, fetch the newest assets and
      merge the unknown ones in at the head; `fetched` is what that fetch
      settles to. */
    method SyncLibrary(fetched: Outcome<Paging.AssetPage>) returns (request: Option<Paging.AssetsOptions>)
      requires Valid()
      modifies this`assetItems, this`hasLibraryUpdates
      ensures Valid()
      ensures request.Some? <==> old(hasLibraryUpdates) && hasMediaLibraryPermission
      ensures request.None? ==> assetItems == old(assetItems) && hasLibraryUpdates == old(hasLibraryUpdates)
      ensures request.Some? ==>
                request.value == Paging.UpdateRequest(settings.assetsType)
                && !hasLibraryUpdates
                && assetItems == Paging.MergeUpdate(old(assetItems), fetched)
    {
      if !hasLibraryUpdates || !hasMediaLibraryPermission {
        return None;
      }
      request := Some(Paging.UpdateRequest(settings.assetsType));
      hasLibraryUpdates := false;
      match fetched
      case Failure =>
      case Success(page) =>
        if |page.assets| <= 0 {
          return;
        }
        var assets := Paging.NewAssets(page.assets, assetItems);
        assetItems := assets + assetItems;
    }

    /** manipulateResults: build the result list from the selection and hand
      it to the sink that `source` names. */
    method ManipulateResults(source: string, manipulate: Export.Manipulator, getInfo: Export.InfoFetcher)
        returns (delivery: Delivery)
      modifies this`error
      ensures delivery.sink == Export.Route(source, navigator.Some?, hasCustomNavigator)
      ensures var outcome := Export.ExportOf(Export.PrepareResponse(assetItems, selectedItems),
                                             Export.PassFor(settings.getImageMetaData, resize), manipulate, getInfo);
        && delivery.results == outcome.results
        && error == if outcome.resizeError then ErrorState(true, HasErrorWithResizing) else old(error)
      ensures old(error).hasError ==> error.hasError
    {
      var selectedAssets := Export.PrepareResponse(assetItems, selectedItems);
      var sink := Export.Route(source, navigator.Some?, hasCustomNavigator);
      if settings.getImageMetaData && resize.None? {
        var metaData := Export.FetchInfoEach(selectedAssets, getInfo);
        Export.MetadataPassOutcome(selectedAssets, manipulate, getInfo, metaData);
        match metaData
        case Success(infos) =>
          return Delivery(sink, Export.AsInfos(infos));
        case Failure =>
          error := ErrorState(true, HasErrorWithResizing);
          return Delivery(sink, Export.AsOriginals(selectedAssets));
      }
      if resize.Some? {
        var modAssets, failed := Export.ResizeEach(selectedAssets, resize.value, manipulate);
        Export.ResizePassOutcome(selectedAssets, resize.value, manipulate, getInfo, modAssets, failed);
        if failed {
          error := ErrorState(true, HasErrorWithResizing);
        }
        return Delivery(sink, modAssets);
      }
      return Delivery(sink, Export.AsOriginals(selectedAssets));
    }

    /** A press on the default navigator's finish button: the gate of
      handleActionRequest, then manipulateResults('default'). */
    method PressFinish(manipulate: Export.Manipulator, getInfo: Export.InfoFetcher) returns (delivery: Option<Delivery>)
      modifies this`error
      ensures navigator.None? ==> delivery.None?
      ensures navigator.Some? ==>
                (delivery.Some? <==> Navigator.HandleActionRequest(Some(|selectedItems|), navigator.value.minSelection) == 1)
      ensures delivery.None? ==> error == old(error)
      ensures delivery.Some? ==> delivery.value.sink == Export.DefaultSink
      ensures delivery.Some? ==> |delivery.value.results| == |Export.PrepareResponse(assetItems, selectedItems)|
      ensures delivery.Some? ==>
                var outcome := Export.ExportOf(Export.PrepareResponse(assetItems, selectedItems),
                                               Export.PassFor(settings.getImageMetaData, resize), manipulate, getInfo);
                && delivery.value.results == outcome.results
                && error == if outcome.resizeError then ErrorState(true, HasErrorWithResizing) else old(error)
      ensures old(error).hasError ==> error.hasError
    {
      if navigator.None? {
        return None;
      }
      var calls := Navigator.HandleActionRequest(Some(|selectedItems|), navigator.value.minSelection);
      if calls == 0 {
        return None;
      }
      var d := ManipulateResults("default", manipulate, getInfo);
      return Some(d);
    }
  }
}
