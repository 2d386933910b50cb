/** Forward paging and live-update reconciliation of AssetsSelector: which
    request getAssets issues, how loadAssets applies a page, and how the
    library-update effect merges fresh assets into the list. */
module Paging {
  import opened Types
  import opened Seqs

  /** The page size of forward paging and of the library-update fetch. */
  const PAGE_SIZE := 100
  const UPDATE_PAGE_SIZE := 50

  /** The cursor at mount and after reloadAssets. */
  const INITIAL_AVAILABLE_OPTIONS := PagedInfo(100, "", "", true, 0)

  datatype SortKey = ModificationTime

  /** The query handed to getAssetsAsync. */
  datatype AssetsOptions = AssetsOptions(first: int, mediaType: seq<MediaType>, sortBy: seq<SortKey>, after: Option<string>)

  /** What a call of getAssets starts: nothing, a permission request, or a page fetch. */
  datatype Request = NoRequest | AskPermission | FetchPage(params: AssetsOptions)

  /** The decision getAssets takes from the cursor and the permission flag. */
  function PlanRequest(cursor: PagedInfo, hasPermission: bool, assetsType: seq<MediaType>): (r: Request)
    ensures r.NoRequest? <==> !cursor.hasNextPage
    ensures r.AskPermission? <==> cursor.hasNextPage && !hasPermission
    ensures r.FetchPage? <==> cursor.hasNextPage && hasPermission
    ensures r.FetchPage? ==> r.params.first == PAGE_SIZE && r.params.mediaType == assetsType
    ensures r.FetchPage? ==> r.params.sortBy == [ModificationTime]
    ensures r.FetchPage? ==> r.params.after == if cursor.after != "" then Some(cursor.after) else None
  {
    if cursor.hasNextPage then
      var after := if cursor.after != "" then Some(cursor.after) else None;
      var params := AssetsOptions(PAGE_SIZE, assetsType, [ModificationTime], after);
      if hasPermission then FetchPage(params) else AskPermission
    else
      NoRequest
  }

  /** What getAssetsAsync resolves to. */
  datatype AssetPage = AssetPage(endCursor: string, assets: seq<Asset>, hasNextPage: bool)

  /** The part of the component state that a page completion writes. */
  datatype Listing = Listing(items: seq<Asset>, selected: seq<string>, cursor: PagedInfo, error: ErrorState)

  /** The completion of loadAssets. A page is appended as delivered (ids
      already loaded are not filtered out), the cursor advances, and an
      under-full selection receives the page's first id whatever the
      ceiling is and whether or not that id is selected already. */
  function ApplyPage(l: Listing, outcome: Outcome<AssetPage>, minSelection: int): (r: Listing)
    ensures l.items <= r.items && l.selected <= r.selected
    ensures |r.selected| <= |l.selected| + 1
    ensures r.items == l.items <==> r.cursor == l.cursor
    ensures r.cursor != l.cursor ==>
              outcome.Success? && r.cursor.after == outcome.value.endCursor != l.cursor.after
    ensures r.items != l.items ==> r.items[|l.items|..] == outcome.value.assets != []
    ensures r.selected != l.selected ==> r.items != l.items && r.selected[|l.selected|] == r.items[|l.items|].id
    ensures r.error == l.error || (r.error.hasError && r == l.(error := r.error))
    ensures l.error.hasError ==> r.error.hasError
  {
    match outcome
    case Failure =>
      l.(error := ErrorState(true, HasErrorWithLoading))
    case Success(page) =>
      if |page.assets| <= 0 then
        l.(error := ErrorState(true, HasNoAssets))
      else if l.cursor.after == page.endCursor then
        l
      else
        var cursor := l.cursor.(after := page.endCursor, hasNextPage := page.hasNextPage);
        var items := l.items + page.assets;
        var selected := if |l.selected| < minSelection then l.selected + [page.assets[0].id] else l.selected;
        Listing(items, selected, cursor, l.error)
  }

  /** A fresh page: appended at the tail, cursor advanced to its end cursor,
      first id auto-selected while the selection is under the floor. */
  lemma PageAppended(l: Listing, page: AssetPage, minSelection: int)
    requires page.assets != [] && page.endCursor != l.cursor.after
    ensures var r := ApplyPage(l, Success(page), minSelection);
      && r.items == l.items + page.assets
      && r.cursor == l.cursor.(after := page.endCursor, hasNextPage := page.hasNextPage)
      && r.selected == (if |l.selected| < minSelection then l.selected + [page.assets[0].id] else l.selected)
      && r.error == l.error
  {
  }

  /** An empty page reports an empty library even when assets are loaded. */
  lemma PageEmpty(l: Listing, page: AssetPage, minSelection: int)
    requires page.assets == []
    ensures ApplyPage(l, Success(page), minSelection) == l.(error := ErrorState(true, HasNoAssets))
  {
  }

  /** A page whose end cursor is the stored one changes nothing. */
  lemma PageStale(l: Listing, page: AssetPage, minSelection: int)
    requires page.assets != [] && page.endCursor == l.cursor.after
    ensures ApplyPage(l, Success(page), minSelection) == l
  {
  }

  /** A rejected fetch only raises the loading error. */
  lemma PageRejected(l: Listing, minSelection: int)
    ensures ApplyPage(l, Failure, minSelection) == l.(error := ErrorState(true, HasErrorWithLoading))
  {
  }

  /** Thanks to the equal-cursor guard, delivering the same outcome twice
      is the same as delivering it once. */
  lemma ApplyPageIdempotent(l: Listing, outcome: Outcome<AssetPage>, minSelection: int)
    ensures var once := ApplyPage(l, outcome, minSelection);
      ApplyPage(once, outcome, minSelection) == once
  {
  }

  /** With a floor no higher than the ceiling, auto-selection never pushes
      the selection over the ceiling. */
  lemma ApplyPageKeepsCeiling(l: Listing, outcome: Outcome<AssetPage>, minSelection: int, maxSelection: int)
    requires minSelection <= maxSelection && |l.selected| <= maxSelection
    ensures |ApplyPage(l, outcome, minSelection).selected| <= maxSelection
  {
  }

  /** With a floor above the ceiling, a selection already at the ceiling
      is pushed over it by the next fresh page. */
  lemma ApplyPageCanExceedCeiling(l: Listing, page: AssetPage, minSelection: int, maxSelection: int)
    requires |l.selected| == maxSelection < minSelection
    requires page.assets != [] && page.endCursor != l.cursor.after
    ensures |ApplyPage(l, Success(page), minSelection).selected| == maxSelection + 1
  {
  }

  /** After a reset, one fresh page becomes the whole list and, under a
      positive floor, its first id the whole selection. */
  lemma FirstPageAfterReset(page: AssetPage, error: ErrorState, minSelection: int)
    requires page.assets != [] && page.endCursor != ""
    ensures var r := ApplyPage(Listing([], [], INITIAL_AVAILABLE_OPTIONS, error), Success(page), minSelection);
      && r.items == page.assets
      && r.cursor.hasNextPage == page.hasNextPage
      && r.cursor.after == page.endCursor
      && r.selected == (if minSelection > 0 then [page.assets[0].id] else [])
  {
  }

  /** A first page whose end cursor is empty equals the initial `after`
      and is dropped. */
  lemma FirstPageWithEmptyCursorDropped(page: AssetPage, error: ErrorState, minSelection: int)
    requires page.assets != [] && page.endCursor == ""
    ensures ApplyPage(Listing([], [], INITIAL_AVAILABLE_OPTIONS, error), Success(page), minSelection).items == []
  {
  }

  /** Paging does not deduplicate: a page repeating a loaded id leaves the
      list with that id twice. */
  lemma PageAppendKeepsDuplicates(a: Asset, minSelection: int)
    ensures var l := Listing([a], [], INITIAL_AVAILABLE_OPTIONS, ErrorState(false, HasErrorWithPermissions));
      var r := ApplyPage(l, Success(AssetPage("1", [a], true)), minSelection);
      NoDup(Ids(l.items)) && !NoDup(Ids(r.items))
  {
    var l := Listing([a], [], INITIAL_AVAILABLE_OPTIONS, ErrorState(false, HasErrorWithPermissions));
    var r := ApplyPage(l, Success(AssetPage("1", [a], true)), minSelection);
    assert r.items == [a, a];
    assert Ids(r.items)[0] == Ids(r.items)[1];
  }

  /** The query of the library-update effect: the newest assets, no cursor. */
  function UpdateRequest(assetsType: seq<MediaType>): (r: AssetsOptions)
    ensures r.first == UPDATE_PAGE_SIZE && r.after.None? && r.mediaType == assetsType
    ensures r.sortBy == [ModificationTime]
  {
    AssetsOptions(UPDATE_PAGE_SIZE, assetsType, [ModificationTime], None)
  }

  /** The fetched assets whose ids are not loaded yet, in fetched order. */
  function NewAssets(fetched: seq<Asset>, items: seq<Asset>): (r: seq<Asset>)
    ensures forall a :: a in r <==> a in fetched && a.id !in Ids(items)
    ensures Subsequence(r, fetched)
    ensures forall id :: id in Ids(r) ==> id in Ids(fetched) && id !in Ids(items)
    ensures NoDup(Ids(fetched)) ==> NoDup(Ids(r))
  {
    if fetched == [] then []
    else
      var rest := NewAssets(fetched[1..], items);
      if IndexOf(Ids(items), fetched[0].id) < 0 then
        NewAssetsKept(fetched, items, rest);
        [fetched[0]] + rest
      else
        NewAssetsSkipped(fetched, items, rest);
        rest
  }

  /** The step of NewAssets that keeps the head of the fetched page. */
  lemma NewAssetsKept(fetched: seq<Asset>, items: seq<Asset>, rest: seq<Asset>)
    requires fetched != [] && fetched[0].id !in Ids(items)
    requires forall a :: a in rest <==> a in fetched[1..] && a.id !in Ids(items)
    requires Subsequence(rest, fetched[1..])
    requires forall id :: id in Ids(rest) ==> id in Ids(fetched[1..]) && id !in Ids(items)
    requires NoDup(Ids(fetched[1..])) ==> NoDup(Ids(rest))
    ensures forall a :: a in [fetched[0]] + rest <==> a in fetched && a.id !in Ids(items)
    ensures Subsequence([fetched[0]] + rest, fetched)
    ensures forall id :: id in Ids([fetched[0]] + rest) ==> id in Ids(fetched) && id !in Ids(items)
    ensures NoDup(Ids(fetched)) ==> NoDup(Ids([fetched[0]] + rest))
  {
    var r := [fetched[0]] + rest;
    assert fetched == [fetched[0]] + fetched[1..];
    assert r[0] == fetched[0] && r[1..] == rest;
    KeptIds(fetched, items, rest);
    assert NoDup(Ids(fetched)) ==> NoDup(Ids(r)) by {
      if NoDup(Ids(fetched)) {
        KeptNoDup(fetched, rest);
      }
    }
  }

  /** The ids of the kept head and the rest come from the page and are not loaded. */
  lemma KeptIds(fetched: seq<Asset>, items: seq<Asset>, rest: seq<Asset>)
    requires fetched != [] && fetched[0].id !in Ids(items)
    requires forall id :: id in Ids(rest) ==> id in Ids(fetched[1..]) && id !in Ids(items)
    ensures forall id :: id in Ids([fetched[0]] + rest) ==> id in Ids(fetched) && id !in Ids(items)
  {
    HeadIds(fetched);
    IdsAppend([fetched[0]], rest);
    assert Ids([fetched[0]]) == [fetched[0].id];
  }

  /** Keeping a head whose id the rest lacks keeps the ids unique. */
  lemma KeptNoDup(fetched: seq<Asset>, rest: seq<Asset>)
    requires fetched != [] && NoDup(Ids(fetched))
    requires NoDup(Ids(fetched[1..])) ==> NoDup(Ids(rest))
    requires forall id :: id in Ids(rest) ==> id in Ids(fetched[1..])
    ensures NoDup(Ids([fetched[0]] + rest))
  {
    HeadIds(fetched);
    NoDupCons(fetched[0].id, Ids(fetched[1..]));
    IdsAppend([fetched[0]], rest);
    assert Ids([fetched[0]]) == [fetched[0].id];
    NoDupCons(fetched[0].id, Ids(rest));
  }

  /** The step of NewAssets that drops an already loaded head. */
  lemma NewAssetsSkipped(fetched: seq<Asset>, items: seq<Asset>, rest: seq<Asset>)
    requires fetched != [] && fetched[0].id in Ids(items)
    requires forall a :: a in rest <==> a in fetched[1..] && a.id !in Ids(items)
    requires Subsequence(rest, fetched[1..])
    requires forall id :: id in Ids(rest) ==> id in Ids(fetched[1..]) && id !in Ids(items)
    requires NoDup(Ids(fetched[1..])) ==> NoDup(Ids(rest))
    ensures forall a :: a in rest <==> a in fetched && a.id !in Ids(items)
    ensures Subsequence(rest, fetched)
    ensures forall id :: id in Ids(rest) ==> id in Ids(fetched) && id !in Ids(items)
    ensures NoDup(Ids(fetched)) ==> NoDup(Ids(rest))
  {
    assert fetched == [fetched[0]] + fetched[1..];
    HeadIds(fetched);
    if rest != [] {
      assert rest[0] in rest;
      assert rest[0] != fetched[0];
    }
    if NoDup(Ids(fetched)) {
      NoDupCons(fetched[0].id, Ids(fetched[1..]));
    }
  }

  /** The ids of a non-empty list: the head's id, then the tail's ids. */
  lemma HeadIds(s: seq<Asset>)
    requires s != []
    ensures Ids(s) == [s[0].id] + Ids(s[1..])
  {
  }

  /** The completion of the library-update fetch over the loaded list. */
  function MergeUpdate(items: seq<Asset>, outcome: Outcome<AssetPage>): (r: seq<Asset>)
    ensures |r| >= |items| && r[|r| - |items|..] == items
    ensures forall a :: a in r[..|r| - |items|] ==> outcome.Success? && a in outcome.value.assets && a.id !in Ids(items)
    ensures NoDup(Ids(items)) && (outcome.Success? ==> NoDup(Ids(outcome.value.assets))) ==> NoDup(Ids(r))
    ensures outcome.Failure? || outcome.value.assets == [] ==> r == items
    ensures outcome.Success? && outcome.value.assets != [] ==> r == NewAssets(outcome.value.assets, items) + items
  {
    match outcome
    case Failure => items
    case Success(page) =>
      if |page.assets| <= 0 then
        items
      else
        var added := NewAssets(page.assets, items);
        IdsAppend(added, items);
        assert (added + items)[|added|..] == items;
        assert (added + items)[..|added|] == added;
        assert NoDup(Ids(items)) && NoDup(Ids(page.assets)) ==> NoDup(Ids(added + items)) by {
          if NoDup(Ids(items)) && NoDup(Ids(page.assets)) {
            NoDupConcat(Ids(added), Ids(items));
          }
        }
        added + items
  }

  /** Every fetched asset not yet loaded ends up at the head, and the loaded
      list follows unchanged. */
  lemma {:induction false} MergeKeepsEveryNewAsset(items: seq<Asset>, page: AssetPage, a: Asset)
    requires a in page.assets && a.id !in Ids(items)
    ensures a in MergeUpdate(items, Success(page))
  {
    assert a in NewAssets(page.assets, items);
  }

  /** An update that only brings back loaded ids leaves the list as it was. */
  lemma {:induction false} MergeOfKnownAssets(items: seq<Asset>, page: AssetPage)
    requires forall a :: a in page.assets ==> a.id in Ids(items)
    ensures MergeUpdate(items, Success(page)) == items
  {
    var added := NewAssets(page.assets, items);
    if added != [] {
      assert added[0] in added;
    }
  }
}
