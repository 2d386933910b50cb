/** The export pipeline of AssetsSelector: projecting the selection onto the
    loaded assets (prepareResponse), the per-asset resize or metadata pass
    (manipulateResults with asyncForEach and resizeImages), and the choice
    of result sink (responseWithResults). */
module Export {
  import opened Types
  import opened Seqs
  import Selection

  // ---------------------------------------------------------------------
  // prepareResponse

  /** The sort key of prepareResponse: the position of the asset's id in
      the selection (-1 when it is not selected). */
  function Rank(selected: seq<string>, a: Asset): int
  {
    IndexOf(selected, a.id)
  }

  /** Ranks never decrease along s. */
  predicate Ordered(s: seq<Asset>, selected: seq<string>)
  {
    forall i, j :: 0 <= i < j < |s| ==> Rank(selected, s[i]) <= Rank(selected, s[j])
  }

  /** Ranks strictly increase along s. */
  predicate StrictlyOrdered(s: seq<Asset>, selected: seq<string>)
  {
    forall i, j :: 0 <= i < j < |s| ==> Rank(selected, s[i]) < Rank(selected, s[j])
  }

  /** No asset occurs twice. */
  predicate Distinct(s: seq<Asset>)
  {
    forall i, j :: 0 <= i < j < |s| ==> s[i] != s[j]
  }

  /** The filter step: the loaded assets whose id is selected, in list order. */
  function FilterSelected(items: seq<Asset>, selected: seq<string>): (r: seq<Asset>)
    ensures forall a :: a in r <==> a in items && a.id in selected
    ensures forall a :: multiset(r)[a] == if a.id in selected then multiset(items)[a] else 0
    ensures Distinct(items) ==> Distinct(r)
  {
    if items == [] then []
    else
      assert items == [items[0]] + items[1..];
      var rest := FilterSelected(items[1..], selected);
      assert Distinct(items) ==> Distinct(items[1..]) by {
        if Distinct(items) {
          forall i, j | 0 <= i < j < |items[1..]| ensures items[1..][i] != items[1..][j] {
            assert items[1..][i] == items[i + 1] && items[1..][j] == items[j + 1];
          }
        }
      }
      if IndexOf(selected, items[0].id) != -1 then
        DistinctCons(items[0], rest);
        DistinctCons(items[0], items[1..]);
        [items[0]] + rest
      else
        rest
  }

  lemma DistinctCons(x: Asset, s: seq<Asset>)
    ensures Distinct([x] + s) <==> x !in s && Distinct(s)
  {
    if x !in s && Distinct(s) {
      forall i, j | 0 <= i < j < |[x] + s| ensures ([x] + s)[i] != ([x] + s)[j] {
        if i > 0 {
          assert ([x] + s)[i] == s[i - 1];
        }
      }
    }
    if Distinct([x] + s) {
      forall i, j | 0 <= i < j < |s| ensures s[i] != s[j] {
        assert s[i] == ([x] + s)[i + 1] && s[j] == ([x] + s)[j + 1];
      }
      forall k | 0 <= k < |s| ensures s[k] != x {
        assert ([x] + s)[0] == x && ([x] + s)[k + 1] == s[k];
      }
    }
  }

  /** One step of the stable sort: a goes before the first element whose
      rank is not below its own, so it stays ahead of equal ranks. */
  function Insert(selected: seq<string>, a: Asset, t: seq<Asset>): (r: seq<Asset>)
    ensures |r| == |t| + 1
    ensures multiset(r) == multiset(t) + multiset{a}
    ensures forall x :: x in r <==> x == a || x in t
    ensures Ordered(t, selected) ==> Ordered(r, selected)
    ensures Distinct(t) && a !in t ==> Distinct(r)
  {
    if t == [] || Rank(selected, a) <= Rank(selected, t[0]) then
      DistinctCons(a, t);
      assert Ordered(t, selected) ==> Ordered([a] + t, selected) by {
        if Ordered(t, selected) && t != [] {
          HeadRankBound(selected, t);
        }
        if Ordered(t, selected) {
          ConsOrdered(selected, a, t);
        }
      }
      [a] + t
    else
      assert t == [t[0]] + t[1..];
      var rest := Insert(selected, a, t[1..]);
      assert Ordered(t, selected) ==> Ordered([t[0]] + rest, selected) by {
        if Ordered(t, selected) {
          HeadRankBound(selected, t);
          ConsOrdered(selected, t[0], rest);
        }
      }
      assert Distinct(t) && a !in t ==> Distinct([t[0]] + rest) by {
        DistinctCons(t[0], t[1..]);
        DistinctCons(t[0], rest);
      }
      [t[0]] + rest
  }

  /** In an ordered sequence the head has the least rank, and the tail is ordered. */
  lemma HeadRankBound(selected: seq<string>, t: seq<Asset>)
    requires t != [] && Ordered(t, selected)
    ensures forall y :: y in t ==> Rank(selected, t[0]) <= Rank(selected, y)
    ensures Ordered(t[1..], selected)
  {
    forall y | y in t ensures Rank(selected, t[0]) <= Rank(selected, y) {
      var i :| 0 <= i < |t| && t[i] == y;
    }
    forall i, j | 0 <= i < j < |t[1..]| ensures Rank(selected, t[1..][i]) <= Rank(selected, t[1..][j]) {
      assert t[1..][i] == t[i + 1] && t[1..][j] == t[j + 1];
    }
  }

  /** An element ranked no later than all of an ordered sequence may go in front. */
  lemma ConsOrdered(selected: seq<string>, x: Asset, s: seq<Asset>)
    requires Ordered(s, selected)
    requires forall y :: y in s ==> Rank(selected, x) <= Rank(selected, y)
    ensures Ordered([x] + s, selected)
  {
    forall i, j | 0 <= i < j < |[x] + s| ensures Rank(selected, ([x] + s)[i]) <= Rank(selected, ([x] + s)[j]) {
      assert ([x] + s)[j] == s[j - 1];
      if i == 0 {
        assert s[j - 1] in s;
      } else {
        assert ([x] + s)[i] == s[i - 1];
      }
    }
  }

  /** A stable sort of s by rank (insertion sort; Array.prototype.sort is
      stable). */
  function SortByRank(selected: seq<string>, s: seq<Asset>): (r: seq<Asset>)
    ensures multiset(r) == multiset(s)
    ensures forall x :: x in r <==> x in s
    ensures Ordered(r, selected)
    ensures Distinct(s) ==> Distinct(r)
  {
    if s == [] then []
    else
      assert s == [s[0]] + s[1..];
      DistinctCons(s[0], s[1..]);
      Insert(selected, s[0], SortByRank(selected, s[1..]))
  }

  /** prepareResponse: every loaded asset whose id is selected, with its
      multiplicity in the list, ordered by the position of its id in the
      selection. */
  function PrepareResponse(items: seq<Asset>, selected: seq<string>): (r: seq<Asset>)
    ensures forall a :: a in r <==> a in items && a.id in selected
    ensures forall a :: multiset(r)[a] == if a.id in selected then multiset(items)[a] else 0
    ensures Ordered(r, selected)
    ensures Distinct(items) ==> Distinct(r)
  {
    SortByRank(selected, FilterSelected(items, selected))
  }

  /** The reference order: walk the selection and take, for each id, the
      asset a lookup finds, skipping ids that are not loaded. */
  function InSelectionOrder(items: seq<Asset>, selected: seq<string>): (r: seq<Asset>)
    ensures forall a :: a in r ==> a in items && a.id in selected
    ensures NoDup(Ids(items)) ==> forall a :: a in items && a.id in selected ==> a in r
    ensures NoDup(selected) ==> StrictlyOrdered(r, selected)
  {
    if selected == [] then []
    else
      var rest := InSelectionOrder(items, selected[1..]);
      var head := match Selection.Lookup(items, selected[0]) case Some(a) => [a] case None => [];
      InSelectionOrderStep(items, selected, head, rest);
      head + rest
  }

  /** The inductive step of InSelectionOrder's contract. */
  lemma InSelectionOrderStep(items: seq<Asset>, selected: seq<string>, head: seq<Asset>, rest: seq<Asset>)
    requires selected != []
    requires head == match Selection.Lookup(items, selected[0]) case Some(a) => [a] case None => []
    requires forall a :: a in rest ==> a in items && a.id in selected[1..]
    requires NoDup(Ids(items)) ==> forall a :: a in items && a.id in selected[1..] ==> a in rest
    requires NoDup(selected[1..]) ==> StrictlyOrdered(rest, selected[1..])
    ensures forall a :: a in head + rest ==> a in items && a.id in selected
    ensures NoDup(Ids(items)) ==> forall a :: a in items && a.id in selected ==> a in head + rest
    ensures NoDup(selected) ==> StrictlyOrdered(head + rest, selected)
  {
    assert selected == [selected[0]] + selected[1..];
    if NoDup(Ids(items)) {
      forall a | a in items && a.id in selected ensures a in head + rest {
        if a.id == selected[0] {
          Selection.LookupUnique(items, a);
        } else {
          assert a.id in selected[1..];
        }
      }
    }
    if NoDup(selected) {
      NoDupCons(selected[0], selected[1..]);
      ShiftRanks(selected, rest);
      HeadFirst(selected, head, rest);
    }
  }

  /** A head of rank 0 followed by a strictly ordered tail of positive ranks. */
  lemma HeadFirst(selected: seq<string>, head: seq<Asset>, rest: seq<Asset>)
    requires |head| <= 1 && (head != [] ==> Rank(selected, head[0]) == 0)
    requires StrictlyOrdered(rest, selected)
    requires forall a :: a in rest ==> Rank(selected, a) >= 1
    ensures StrictlyOrdered(head + rest, selected)
  {
    forall i, j | 0 <= i < j < |head + rest|
      ensures Rank(selected, (head + rest)[i]) < Rank(selected, (head + rest)[j])
    {
      if i < |head| {
        assert (head + rest)[i] == head[0] && (head + rest)[j] == rest[j - 1];
        assert rest[j - 1] in rest;
      } else {
        assert (head + rest)[i] == rest[i - |head|] && (head + rest)[j] == rest[j - |head|];
      }
    }
  }

  /** Ranks in the tail of a duplicate-free selection are ranks in the whole
      shifted by one. */
  lemma ShiftRanks(selected: seq<string>, rest: seq<Asset>)
    requires selected != [] && NoDup(selected)
    requires selected[0] !in selected[1..]
    requires forall a :: a in rest ==> a.id in selected[1..]
    requires NoDup(selected[1..]) ==> StrictlyOrdered(rest, selected[1..])
    requires NoDup(selected[1..])
    ensures StrictlyOrdered(rest, selected)
    ensures forall a :: a in rest ==> Rank(selected, a) >= 1
  {
    forall a | a in rest ensures Rank(selected, a) == Rank(selected[1..], a) + 1 {
      IndexOfTail(selected, a.id);
    }
    forall i, j | 0 <= i < j < |rest| ensures Rank(selected, rest[i]) < Rank(selected, rest[j]) {
      assert rest[i] in rest && rest[j] in rest;
    }
  }

  /** With unique ids, two different loaded assets that are both selected
      have different ranks. */
  lemma RanksDiffer(items: seq<Asset>, selected: seq<string>, x: Asset, y: Asset)
    requires NoDup(Ids(items)) && x in items && y in items && x != y
    requires x.id in selected && y.id in selected
    ensures Rank(selected, x) != Rank(selected, y)
  {
    var i :| 0 <= i < |items| && items[i] == x;
    var k :| 0 <= k < |items| && items[k] == y;
    assert Ids(items)[i] != Ids(items)[k];
  }

  /** Unique ids make the assets unique. */
  lemma DistinctFromIds(items: seq<Asset>)
    requires NoDup(Ids(items))
    ensures Distinct(items)
  {
    forall i, j | 0 <= i < j < |items| ensures items[i] != items[j] {
      assert Ids(items)[i] != Ids(items)[j];
    }
  }

  /** The tail of a strictly ordered sequence is strictly ordered. */
  lemma StrictlyOrderedTail(a: seq<Asset>, selected: seq<string>)
    requires a != [] && StrictlyOrdered(a, selected)
    ensures StrictlyOrdered(a[1..], selected)
    ensures forall x :: x in a[1..] ==> Rank(selected, a[0]) < Rank(selected, x)
  {
    forall i, j | 0 <= i < j < |a[1..]| ensures Rank(selected, a[1..][i]) < Rank(selected, a[1..][j]) {
      assert a[1..][i] == a[i + 1] && a[1..][j] == a[j + 1];
    }
    forall x | x in a[1..] ensures Rank(selected, a[0]) < Rank(selected, x) {
      var i :| 0 <= i < |a[1..]| && a[1..][i] == x;
      assert a[1..][i] == a[i + 1];
    }
  }

  /** Two strictly ordered sequences with the same members start alike. */
  lemma StrictlyOrderedHeads(a: seq<Asset>, b: seq<Asset>, selected: seq<string>)
    requires a != [] && b != []
    requires StrictlyOrdered(a, selected) && StrictlyOrdered(b, selected)
    requires forall x :: x in a <==> x in b
    ensures a[0] == b[0]
  {
    assert a[0] in b;
    var k :| 0 <= k < |b| && b[k] == a[0];
    assert b[0] in a;
    var m :| 0 <= m < |a| && a[m] == b[0];
    assert Rank(selected, a[0]) <= Rank(selected, a[m]);
    assert Rank(selected, b[0]) <= Rank(selected, b[k]);
  }

  /** Two sequences with strictly increasing ranks and the same members are equal. */
  lemma {:induction false} StrictlyOrderedUnique(a: seq<Asset>, b: seq<Asset>, selected: seq<string>)
    requires StrictlyOrdered(a, selected) && StrictlyOrdered(b, selected)
    requires forall x :: x in a <==> x in b
    ensures a == b
    decreases |a|
  {
    assert a != [] <==> b != [] by {
      if a != [] {
        assert a[0] in a;
      }
      if b != [] {
        assert b[0] in b;
      }
    }
    if a != [] {
      assert a[0] in b;
      StrictlyOrderedHeads(a, b, selected);
      StrictlyOrderedTail(a, selected);
      StrictlyOrderedTail(b, selected);
      assert a == [a[0]] + a[1..] && b == [b[0]] + b[1..];
      forall x ensures x in a[1..] <==> x in b[1..] {
        assert x in a <==> x == a[0] || x in a[1..];
        assert x in b <==> x == b[0] || x in b[1..];
        assert x in a[1..] ==> Rank(selected, a[0]) < Rank(selected, x);
        assert x in b[1..] ==> Rank(selected, b[0]) < Rank(selected, x);
      }
      StrictlyOrderedUnique(a[1..], b[1..], selected);
    }
  }

  /** When ids are unique in the list and in the selection, prepareResponse
      is exactly the selection projected onto the loaded assets, in
      selection order. */
  lemma PrepareResponseInSelectionOrder(items: seq<Asset>, selected: seq<string>)
    requires NoDup(Ids(items)) && NoDup(selected)
    ensures PrepareResponse(items, selected) == InSelectionOrder(items, selected)
  {
    var p := PrepareResponse(items, selected);
    var f := InSelectionOrder(items, selected);
    DistinctFromIds(items);
    forall i, j | 0 <= i < j < |p| ensures Rank(selected, p[i]) < Rank(selected, p[j]) {
      assert p[i] in p && p[j] in p;
      RanksDiffer(items, selected, p[i], p[j]);
    }
    StrictlyOrderedUnique(p, f, selected);
  }

  // ---------------------------------------------------------------------
  // resizeImages and the per-asset passes of manipulateResults

  datatype SaveFormat = JPEG | PNG

  /** The resize action handed to the image manipulator; None drops the key. */
  datatype SizeOptions = SizeOptions(width: Option<int>, height: Option<int>)

  datatype SaveOptions = SaveOptions(base64: bool, compress: Option<real>, format: SaveFormat)

  /** What the image manipulator resolves to. */
  datatype ImageResult = ImageResult(uri: string, width: int, height: int, base64: Option<string>)

  /** What getAssetInfoAsync resolves to, kept opaque beyond the asset. */
  datatype AssetInfo = AssetInfo(asset: Asset, localUri: Option<string>)

  /** One entry of the list handed to the result sink. */
  datatype ExportItem =
    | Original(asset: Asset)
    | Resized(image: ImageResult, mediaType: MediaType)
    | WithInfo(info: AssetInfo)

  /** The image manipulator, called with the uri, the resize action and the save options. */
  type Manipulator = (string, SizeOptions, SaveOptions) -> Outcome<ImageResult>

  /** The metadata lookup of the media library. */
  type InfoFetcher = Asset -> Outcome<AssetInfo>

  /** The save format: JPEG unless saveTo is a non-empty string other than 'jpeg'. */
  function SaveFormatFor(saveTo: Option<string>): (f: SaveFormat)
    ensures f == PNG <==> saveTo.Some? && saveTo.value != "" && saveTo.value != "jpeg"
  {
    if saveTo.Some? && saveTo.value != "" then
      if saveTo.value == "jpeg" then JPEG else PNG
    else
      JPEG
  }

  /** The target size: as given, unless neither dimension is truthy, in
      which case the asset's own size. */
  function SizeFor(image: Asset, resize: ResizeType): (s: SizeOptions)
    ensures !Truthy(resize.width) && !Truthy(resize.height) ==> s == SizeOptions(Some(image.width), Some(image.height))
    ensures Truthy(resize.width) || Truthy(resize.height) ==> s == SizeOptions(resize.width, resize.height)
  {
    var sizeOptions := SizeOptions(resize.width, resize.height);
    if !Truthy(resize.width) && !Truthy(resize.height) then
      sizeOptions.(width := Some(image.width), height := Some(image.height))
    else
      sizeOptions
  }

  function SaveOptionsFor(resize: ResizeType): (o: SaveOptions)
    ensures o.base64 == resize.base64 && o.compress == resize.compress
    ensures o.format == SaveFormatFor(resize.saveTo)
  {
    SaveOptions(resize.base64, resize.compress, SaveFormatFor(resize.saveTo))
  }

  /** Whether resizing this asset hits a failing manipulator call. */
  predicate ResizeFails(asset: Asset, resize: ResizeType, manipulate: Manipulator)
  {
    asset.mediaType == Photo && manipulate(asset.uri, SizeFor(asset, resize), SaveOptionsFor(resize)).Failure?
  }

  /** The entry the resize pass pushes for one asset: a photo resized with
      the options above, the asset itself when that fails, any other media
      passed through. */
  function ResizeEntry(asset: Asset, resize: ResizeType, manipulate: Manipulator): (r: ExportItem)
    ensures asset.mediaType != Photo ==> r == Original(asset)
    ensures ResizeFails(asset, resize, manipulate) ==> r == Original(asset)
    ensures r.Original? ==> r.asset == asset
    ensures r.Resized? ==> r.mediaType == asset.mediaType == Photo
    ensures r.Resized? ==> manipulate(asset.uri, SizeFor(asset, resize), SaveOptionsFor(resize)) == Success(r.image)
    ensures asset.mediaType == Photo && !ResizeFails(asset, resize, manipulate) ==> r.Resized?
    ensures !r.WithInfo?
  {
    if asset.mediaType == Photo then
      match manipulate(asset.uri, SizeFor(asset, resize), SaveOptionsFor(resize))
      case Success(image) => Resized(image, asset.mediaType)
      case Failure => Original(asset)
    else
      Original(asset)
  }

  /** The resize branch: asyncForEach over the selected assets, pushing one
      entry per asset; `failed` records whether resizeImages raised the
      resizing error at least once. */
  method ResizeEach(assets: seq<Asset>, resize: ResizeType, manipulate: Manipulator)
      returns (modAssets: seq<ExportItem>, failed: bool)
    ensures |modAssets| == |assets|
    ensures forall i :: 0 <= i < |assets| ==> modAssets[i] == ResizeEntry(assets[i], resize, manipulate)
    ensures failed <==> exists i :: 0 <= i < |assets| && ResizeFails(assets[i], resize, manipulate)
  {
    modAssets, failed := [], false;
    var index := 0;
    while index < |assets|
      invariant 0 <= index <= |assets|
      invariant |modAssets| == index
      invariant forall i :: 0 <= i < index ==> modAssets[i] == ResizeEntry(assets[i], resize, manipulate)
      invariant failed <==> exists i :: 0 <= i < index && ResizeFails(assets[i], resize, manipulate)
    {
      var asset := assets[index];
      if asset.mediaType == Photo {
        var resized := manipulate(asset.uri, SizeFor(asset, resize), SaveOptionsFor(resize));
        match resized
        case Success(image) =>
          modAssets := modAssets + [Resized(image, asset.mediaType)];
        case Failure =>
          failed := true;
          modAssets := modAssets + [Original(asset)];
      } else {
        modAssets := modAssets + [Original(asset)];
      }
      index := index + 1;
    }
  }

  /** The metadata branch: asyncForEach awaiting getAssetInfoAsync per
      asset; the first rejection aborts the whole pass. */
  method FetchInfoEach(assets: seq<Asset>, getInfo: InfoFetcher) returns (r: Outcome<seq<AssetInfo>>)
    ensures r.Success? <==> forall i :: 0 <= i < |assets| ==> getInfo(assets[i]).Success?
    ensures r.Success? ==> |r.value| == |assets|
    ensures r.Success? ==> forall i :: 0 <= i < |assets| ==> Success(r.value[i]) == getInfo(assets[i])
  {
    var metaData: seq<AssetInfo> := [];
    var index := 0;
    while index < |assets|
      invariant 0 <= index <= |assets|
      invariant |metaData| == index
      invariant forall i :: 0 <= i < index ==> Success(metaData[i]) == getInfo(assets[i])
    {
      var metaAsset := getInfo(assets[index]);
      if metaAsset.Failure? {
        return Failure;
      }
      metaData := metaData + [metaAsset.value];
      index := index + 1;
    }
    r := Success(metaData);
  }

  // ---------------------------------------------------------------------
  // responseWithResults

  /** Where the results go: the default navigator's onSuccess, the custom
      navigator's, or nowhere when the chosen one is absent. */
  datatype Sink = DefaultSink | CustomSink | NoSink

  function Route(source: string, hasNavigator: bool, hasCustomNavigator: bool): (s: Sink)
    ensures s == DefaultSink <==> source == "default" && hasNavigator
    ensures s == CustomSink <==> source != "default" && hasCustomNavigator
  {
    var isDefault := source == "default";
    if isDefault then
      if hasNavigator then DefaultSink else NoSink
    else
      if hasCustomNavigator then CustomSink else NoSink
  }

  /** The plain selected assets as export entries. */
  function AsOriginals(assets: seq<Asset>): (r: seq<ExportItem>)
    ensures |r| == |assets|
    ensures forall i :: 0 <= i < |assets| ==> r[i] == Original(assets[i])
  {
    seq(|assets|, i requires 0 <= i < |assets| => Original(assets[i]))
  }

  function AsInfos(infos: seq<AssetInfo>): (r: seq<ExportItem>)
    ensures |r| == |infos|
    ensures forall i :: 0 <= i < |infos| ==> r[i] == WithInfo(infos[i])
  {
    seq(|infos|, i requires 0 <= i < |infos| => WithInfo(infos[i]))
  }

  // ---------------------------------------------------------------------
  // manipulateResults

  /** Which pass manipulateResults runs over the selected assets. */
  datatype Pass = MetadataPass | ResizePass(resize: ResizeType) | PlainPass

  /** Metadata only when asked for and no resize policy is set; the resize
      pass whenever a policy is set. */
  function PassFor(getImageMetaData: bool, resize: Option<ResizeType>): (p: Pass)
    ensures p.MetadataPass? <==> getImageMetaData && resize.None?
    ensures p.ResizePass? <==> resize.Some?
    ensures p.ResizePass? ==> p.resize == resize.value
  {
    if getImageMetaData && resize.None? then MetadataPass
    else if resize.Some? then ResizePass(resize.value)
    else PlainPass
  }

  /** The list manipulateResults hands over and whether it raises the
      resizing error. */
  datatype ExportOutcome = ExportOutcome(results: seq<ExportItem>, resizeError: bool)

  /** The outcome of a pass over the selected assets, entry by entry. */
  function ExportOf(selectedAssets: seq<Asset>, pass: Pass, manipulate: Manipulator, getInfo: InfoFetcher): (r: ExportOutcome)
    ensures |r.results| == |selectedAssets|
    ensures pass.PlainPass? ==> r.results == AsOriginals(selectedAssets) && !r.resizeError
    ensures pass.ResizePass? ==>
              (forall i :: 0 <= i < |selectedAssets| ==> r.results[i] == ResizeEntry(selectedAssets[i], pass.resize, manipulate))
              && (r.resizeError <==> exists i :: 0 <= i < |selectedAssets| && ResizeFails(selectedAssets[i], pass.resize, manipulate))
    ensures pass.MetadataPass? ==>
              (r.resizeError <==> exists i :: 0 <= i < |selectedAssets| && getInfo(selectedAssets[i]).Failure?)
    ensures pass.MetadataPass? && !r.resizeError ==>
              forall i :: 0 <= i < |selectedAssets| ==> r.results[i] == WithInfo(getInfo(selectedAssets[i]).value)
    ensures pass.MetadataPass? && r.resizeError ==> r.results == AsOriginals(selectedAssets)
  {
    match pass
    case PlainPass =>
      ExportOutcome(AsOriginals(selectedAssets), false)
    case ResizePass(resize) =>
      var entries := seq(|selectedAssets|, i requires 0 <= i < |selectedAssets| => ResizeEntry(selectedAssets[i], resize, manipulate));
      ExportOutcome(entries, exists i :: 0 <= i < |selectedAssets| && ResizeFails(selectedAssets[i], resize, manipulate))
    case MetadataPass =>
      if forall i :: 0 <= i < |selectedAssets| ==> getInfo(selectedAssets[i]).Success? then
        var infos := seq(|selectedAssets|, i requires 0 <= i < |selectedAssets| => getInfo(selectedAssets[i]).value);
        ExportOutcome(AsInfos(infos), false)
      else
        ExportOutcome(AsOriginals(selectedAssets), true)
  }

  /** What ResizeEach returns is the outcome of the resize pass. */
  lemma ResizePassOutcome(assets: seq<Asset>, resize: ResizeType, manipulate: Manipulator, getInfo: InfoFetcher,
                          modAssets: seq<ExportItem>, failed: bool)
    requires |modAssets| == |assets|
    requires forall i :: 0 <= i < |assets| ==> modAssets[i] == ResizeEntry(assets[i], resize, manipulate)
    requires failed <==> exists i :: 0 <= i < |assets| && ResizeFails(assets[i], resize, manipulate)
    ensures ExportOf(assets, ResizePass(resize), manipulate, getInfo) == ExportOutcome(modAssets, failed)
  {
    var r := ExportOf(assets, ResizePass(resize), manipulate, getInfo);
    assert r.results == modAssets;
  }

  /** What FetchInfoEach returns decides the outcome of the metadata pass. */
  lemma MetadataPassOutcome(assets: seq<Asset>, manipulate: Manipulator, getInfo: InfoFetcher, infos: Outcome<seq<AssetInfo>>)
    requires infos.Success? <==> forall i :: 0 <= i < |assets| ==> getInfo(assets[i]).Success?
    requires infos.Success? ==> |infos.value| == |assets|
    requires infos.Success? ==> forall i :: 0 <= i < |assets| ==> Success(infos.value[i]) == getInfo(assets[i])
    ensures ExportOf(assets, MetadataPass, manipulate, getInfo)
            == if infos.Success? then ExportOutcome(AsInfos(infos.value), false) else ExportOutcome(AsOriginals(assets), true)
  {
    var r := ExportOf(assets, MetadataPass, manipulate, getInfo);
    if infos.Success? {
      assert r.results == AsInfos(infos.value);
    }
  }

  /** A resize pass in which one of three selected photos fails keeps all
      three entries and puts the original in the failing slot. */
  lemma OneFailedResizeOfThree(assets: seq<Asset>, resize: ResizeType, manipulate: Manipulator, k: int)
    requires |assets| == 3 && 0 <= k < 3
    requires forall i :: 0 <= i < 3 ==> assets[i].mediaType == Photo
    requires forall i :: 0 <= i < 3 ==> (ResizeFails(assets[i], resize, manipulate) <==> i == k)
    ensures var r := ExportOf(assets, ResizePass(resize), manipulate, (a: Asset) => Failure);
      && |r.results| == 3
      && r.results[k] == Original(assets[k])
      && (forall i :: 0 <= i < 3 && i != k ==> r.results[i].Resized?)
      && r.resizeError
  {
  }
}
