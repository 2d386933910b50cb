/** The value shapes shared by the picker: assets handed out by the media
    library, the paging cursor, the error channel and the configuration
    records of the component's props. */
module Types {

  datatype Option<T> = None | Some(value: T)

  /** What an awaited provider call settles to: a value, or a rejection
      whose reason the picker never inspects. */
  datatype Outcome<T> = Success(value: T) | Failure

  datatype MediaType = Audio | Photo | Video | Unknown

  /** A media-library asset; the model keeps only the fields the picker reads. */
  datatype Asset = Asset(id: string, uri: string, mediaType: MediaType, width: int, height: int)

  /** The paging cursor kept in component state. */
  datatype PagedInfo = PagedInfo(first: int, after: string, endCursor: string, hasNextPage: bool, totalCount: int)

  /** The error kinds; NoErrorKind is the empty-string member of the union. */
  datatype ErrorKind =
    | HasErrorWithPermissions
    | HasErrorWithLoading
    | HasErrorWithResizing
    | HasNoAssets
    | NoErrorKind

  datatype ErrorState = ErrorState(hasError: bool, errorType: ErrorKind)

  /** The optional resize policy; absent numbers and strings are None. */
  datatype ResizeType = ResizeType(
    width: Option<int>,
    height: Option<int>,
    compress: Option<real>,
    base64: bool,
    saveTo: Option<string>)

  /** The part of the picker's settings that the selection and paging logic reads. */
  datatype Settings = Settings(
    assetsType: seq<MediaType>,
    minSelection: int,
    maxSelection: int,
    getImageMetaData: bool)

  /** The props the picker forwards to the default top navigator. */
  datatype NavigatorProps = NavigatorProps(minSelection: Option<int>)

  /** JavaScript truthiness of an optional number: undefined and 0 are falsy. */
  predicate Truthy(n: Option<int>)
  {
    n.Some? && n.value != 0
  }

  /** The ids of a list of assets, position by position. */
  function Ids(items: seq<Asset>): (ids: seq<string>)
    ensures |ids| == |items|
    ensures forall i :: 0 <= i < |items| ==> ids[i] == items[i].id
  {
    seq(|items|, i requires 0 <= i < |items| => items[i].id)
  }

  lemma IdsAppend(a: seq<Asset>, b: seq<Asset>)
    ensures Ids(a + b) == Ids(a) + Ids(b)
  {
  }
}
