/**
 * Offset pagination of the two listing endpoints, with the `page` query
 * parameter used as the code uses it: converted with `int()` and never
 * range-checked, so that a page number below 1 reaches Python's slicing,
 * which counts negative bounds from the end of the list.
 */
module Pagination {
  import opened Values
  import opened Models
  import Access
  import Loading

  const PageSize: nat := 10

  /** How Python normalises one bound of `s[start:end]` for a list of length `len`. */
  function SliceBound(i: int, len: nat): (b: nat)
    ensures b <= len
    ensures 0 <= i <= len ==> b == i
    ensures i > len ==> b == len
    ensures i < 0 ==> b == if i + len < 0 then 0 else i + len
  {
    if i < 0 then (if i + len < 0 then 0 else i + len)
    else if i > len then len
    else i
  }

  /** Python's `s[start:end]` for a step of 1. */
  function PySlice<T>(s: seq<T>, start: int, end: int): (r: seq<T>)
    ensures 0 <= start <= end <= |s| ==> r == s[start..end]
    ensures 0 <= start <= |s| < end ==> r == s[start..]
    ensures |r| <= |s|
  {
    var a := SliceBound(start, |s|);
    var b := SliceBound(end, |s|);
    if a < b then s[a..b] else []
  }

  datatype Page<T> = OutOfRange | Page(page: int, pageSize: nat, total: nat, results: seq<T>)

  /**
   * The paging arithmetic: `start = (page-1)*10`, out of range when `start`
   * is not below the length, otherwise the slice `data[start:start+10]`
   * with the page number, the page size and the total.
   */
  function Paginate<T>(data: seq<T>, page: int): (r: Page<T>)
    ensures r.OutOfRange? <==> (page - 1) * PageSize >= |data|
    ensures r.Page? ==> r.page == page && r.pageSize == PageSize && r.total == |data| && |r.results| <= PageSize
    ensures r.Page? && page >= 1 ==>
      r.results == data[(page - 1) * PageSize .. if page * PageSize <= |data| then page * PageSize else |data|]
  {
    var start := (page - 1) * PageSize;
    if start >= |data| then OutOfRange
    else Page(page, PageSize, |data|, PySlice(data, start, start + PageSize))
  }

  /** Page 0 is never out of range: it answers with no results, even over an empty list. */
  lemma PageZeroIsEmpty<T>(data: seq<T>)
    ensures Paginate(data, 0) == Page(0, PageSize, |data|, [])
  {
  }

  /**
   * A negative page answers with the window that Python's negative slice
   * bounds select, counted from the end of the list.
   */
  lemma NegativePageCountsFromEnd<T>(data: seq<T>, page: int)
    requires page < 0
    ensures var lo := |data| + (page - 1) * PageSize;
            var hi := |data| + page * PageSize;
            Paginate(data, page) == Page(page, PageSize, |data|,
              if hi <= 0 then [] else data[if lo < 0 then 0 else lo .. hi])
  {
  }

  /** The results of page `k`, or none when it is out of range. */
  function PageItems<T>(data: seq<T>, k: int): seq<T>
  {
    match Paginate(data, k)
    case OutOfRange => []
    case Page(_, _, _, rs) => rs
  }

  /** The first `k` pages laid end to end. */
  function PagesUpTo<T>(data: seq<T>, k: nat): seq<T>
  {
    if k == 0 then [] else PagesUpTo(data, k - 1) + PageItems(data, k)
  }

  /** Where the first `k` pages end in the list. */
  function PrefixEnd<T>(data: seq<T>, k: nat): nat
  {
    if k * PageSize <= |data| then k * PageSize else |data|
  }

  /** Page `k` (from 1) holds the items between the ends of pages `k-1` and `k`. */
  lemma PageItemsSlice<T>(data: seq<T>, k: nat)
    requires k >= 1
    ensures PrefixEnd(data, k - 1) <= PrefixEnd(data, k)
    ensures PageItems(data, k) == data[PrefixEnd(data, k - 1)..PrefixEnd(data, k)]
  {
    var start := (k - 1) * PageSize;
    if start >= |data| {
      assert Paginate(data, k) == OutOfRange;
    } else {
      assert PySlice(data, start, start + PageSize) == data[start..PrefixEnd(data, k)];
    }
  }

  /** The first `k` pages are exactly the first `10k` items, with nothing skipped or repeated. */
  lemma {:induction false} PagesUpToIsPrefix<T>(data: seq<T>, k: nat)
    ensures PagesUpTo(data, k) == data[..PrefixEnd(data, k)]
  {
    if k > 0 {
      PagesUpToIsPrefix(data, k - 1);
      PageItemsSlice(data, k);
      assert data[..PrefixEnd(data, k - 1)] + data[PrefixEnd(data, k - 1)..PrefixEnd(data, k)] == data[..PrefixEnd(data, k)];
    }
  }

  /** Pages 1, 2, ... up to the last in-range page give back the whole list. */
  lemma PagesCoverData<T>(data: seq<T>)
    ensures PagesUpTo(data, (|data| + PageSize - 1) / PageSize) == data
    ensures Paginate(data, (|data| + PageSize - 1) / PageSize + 1).OutOfRange?
  {
    var k := (|data| + PageSize - 1) / PageSize;
    PagesUpToIsPrefix(data, k);
    assert k * PageSize >= |data|;
    assert data[..|data|] == data;
  }

  /** The `page` query parameter: absent (page 1), or the outcome of `int()` on its text. */
  datatype PageParameter = DefaultPage | PageText(parsed: Option<int>)

  /** The body of a listing answer. */
  datatype Listing = Listing(dataset: Option<string>, page: int, pageSize: nat, total: nat, results: seq<Json>)

  datatype ListOutcome =
    | NoDatasets
    | Forbidden
    | DatasetMissing
    | BadPage
    | PageOutOfRange
    | Listed(listing: Listing)
  {
    function Status(): int
    {
      match this
      case NoDatasets => 403
      case Forbidden => 403
      case DatasetMissing => 404
      case BadPage => 500
      case PageOutOfRange => 404
      case Listed(_) => 200
    }
  }

  /** The page number the endpoint works with; None when `int()` raises. */
  function PageNumber(p: PageParameter): Option<int>
  {
    match p
    case DefaultPage => Some(1)
    case PageText(parsed) => parsed
  }

  /** Pages `data` for the endpoint once authorisation and loading are done. */
  function PageOf(data: seq<Json>, dataset: Option<string>, p: PageParameter): (out: ListOutcome)
    ensures out.BadPage? <==> PageNumber(p).None?
    ensures out.PageOutOfRange? <==> PageNumber(p).Some? && (PageNumber(p).value - 1) * PageSize >= |data|
    ensures out.Listed? ==>
      out.listing.total == |data| && out.listing.dataset == dataset &&
      out.listing.pageSize == PageSize && |out.listing.results| <= PageSize
    ensures out.Listed? ==>
      PageNumber(p).Some? && out.listing.page == PageNumber(p).value &&
      Paginate(data, PageNumber(p).value) == Page(out.listing.page, out.listing.pageSize, out.listing.total, out.listing.results) &&
      out.listing.results == PageItems(data, out.listing.page)
    ensures !out.NoDatasets? && !out.Forbidden? && !out.DatasetMissing?
  {
    match PageNumber(p)
    case None => BadPage
    case Some(page) =>
      match Paginate(data, page)
      case OutOfRange => PageOutOfRange
      case Page(n, size, total, results) => Listed(Listing(dataset, n, size, total, results))
  }

  /**
   * `retrieve_all`: refused when the user holds no access right at all;
   * otherwise the union, in the order of the user's rows, of the datasets
   * the user may read, paged.
   */
  method RetrieveAll(rights: seq<AccessRight>, user: string, lake: Option<seq<Entry>>, p: PageParameter)
    returns (out: ListOutcome)
    ensures out.Status() == 403 <==> forall i :: 0 <= i < |rights| ==> rights[i].user != user
    ensures out.NoDatasets? ==> forall i :: 0 <= i < |rights| ==> rights[i].user != user
    ensures !out.NoDatasets? ==> out == PageOf(Loading.Union(lake, Access.UserDatasets(rights, user)), None, p)
  {
    var datasets := Access.UserDatasets(rights, user);
    if datasets == [] {
      return NoDatasets;
    }
    var authorized := Loading.LoadAuthorizedData(lake, datasets);
    out := PageOf(authorized, None, p);
  }

  /**
   * `retrieve_projection`: 403 without the dataset's access right, 404 when
   * its folder is missing, then the folder's records paged.
   */
  method RetrieveProjection(rights: seq<AccessRight>, user: string, lake: Option<seq<Entry>>, datasetName: string, p: PageParameter)
    returns (out: ListOutcome)
    ensures out.Forbidden? <==> !Access.CheckDatasetAccess(rights, user, datasetName)
    ensures out.DatasetMissing? <==> Access.CheckDatasetAccess(rights, user, datasetName) && SubFolder(lake, datasetName).None?
    ensures Access.CheckDatasetAccess(rights, user, datasetName) && SubFolder(lake, datasetName).Some? ==>
      out == PageOf(Loading.Flatten(SubFolder(lake, datasetName).value), Some(datasetName), p)
  {
    if !Access.CheckDatasetAccess(rights, user, datasetName) {
      return Forbidden;
    }
    var data := Loading.LoadDataForDataset(lake, datasetName);
    if data.None? {
      return DatasetMissing;
    }
    out := PageOf(data.value, Some(datasetName), p);
  }
}
