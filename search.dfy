/**
 * The full-text search endpoint: checks the backend and the parameters,
 * builds the query (a text match over seven fields, and a lower bound on
 * the timestamp when a start date is given), and groups the hits the
 * backend returns by the dataset they were indexed from.
 */
module Search {
  import opened Values
  import opened Documents

  /** The fields the text query is matched against. */
  const SearchFields: seq<string> :=
    ["transaction_id", "payment_method", "country", "product_category", "user_name", "user_id", "product_id"]

  /** One `must` condition of the boolean query. */
  datatype Condition =
    | MultiMatch(text: string, fields: seq<string>)
    | TimestampFrom(since: int)

  /** What the backend answers: the hits it returns and the total it counts. */
  datatype SearchResponse = SearchResponse(hits: seq<SearchDocument>, total: nat)

  /** One hit as the answer lists it: the document without its dataset and version. */
  datatype SearchItem = SearchItem(
    transactionId: Json,
    paymentMethod: Json,
    country: Json,
    productCategory: Json,
    status: Json,
    amount: real,
    customerRating: Json,
    timestamp: DocTime,
    userId: Json,
    userName: Json,
    productId: Json)

  datatype DatasetHits = DatasetHits(version: string, items: seq<SearchItem>)

  /** `results_by_dataset`: an insertion-ordered dictionary keyed by dataset. */
  type Grouped = seq<(string, DatasetHits)>

  datatype SearchAnswer = SearchAnswer(query: string, fromDate: Option<string>, totalHits: nat, results: Grouped)

  /** How a search request ends; `Status` is the HTTP status it is answered with. */
  datatype SearchOutcome =
    | Unavailable
    | MissingQuery
    | BadDate
    | SearchFailed
    | Found(answer: SearchAnswer)
  {
    function Status(): int
    {
      match this
      case Unavailable => 503
      case MissingQuery => 400
      case BadDate => 400
      case SearchFailed => 500
      case Found(_) => 200
    }
  }

  /**
   * One entry of a dataset's `items`: every field of the hit but its dataset
   * and version, which the entry's group already carries; putting those two
   * back gives the hit itself.
   */
  function ItemOf(d: SearchDocument): (item: SearchItem)
    ensures SearchDocument(item.transactionId, item.paymentMethod, item.country, item.productCategory, item.status,
                           item.amount, item.customerRating, item.timestamp, item.userId, item.userName, item.productId,
                           d.datasetSource, d.version) == d
  {
    SearchItem(d.transactionId, d.paymentMethod, d.country, d.productCategory, d.status, d.amount,
               d.customerRating, d.timestamp, d.userId, d.userName, d.productId)
  }

  /**
   * The query's conditions: the text match, then the start-date bound when
   * a start date was parsed.
   */
  function Conditions(query: string, since: Option<int>): (cs: seq<Condition>)
    ensures |cs| >= 1 && cs[0] == MultiMatch(query, SearchFields)
    ensures since.None? ==> |cs| == 1
    ensures since.Some? ==> |cs| == 2 && cs[1] == TimestampFrom(since.value)
  {
    [MultiMatch(query, SearchFields)] + (if since.Some? then [TimestampFrom(since.value)] else [])
  }

  // ---------------------------------------------------------------------
  // Grouping the hits

  /** The position of `dataset` in the grouped answer. */
  function GroupIndex(grouped: Grouped, dataset: string): (k: Option<nat>)
    ensures k.Some? ==> k.value < |grouped| && grouped[k.value].0 == dataset
    ensures k.None? ==> forall i :: 0 <= i < |grouped| ==> grouped[i].0 != dataset
  {
    if grouped == [] then None
    else if grouped[0].0 == dataset then Some(0)
    else match GroupIndex(grouped[1..], dataset)
      case None => None
      case Some(j) => Some(j + 1)
  }

  /** One pass of the loop: the hit's dataset gets a group (versioned by this hit) if it has none, then the hit's item. */
  function AddHit(grouped: Grouped, hit: SearchDocument): Grouped
  {
    match GroupIndex(grouped, hit.datasetSource)
    case None => grouped + [(hit.datasetSource, DatasetHits(hit.version, [ItemOf(hit)]))]
    case Some(k) => grouped[k := (grouped[k].0, grouped[k].1.(items := grouped[k].1.items + [ItemOf(hit)]))]
  }

  /** The grouped answer after the loop has run over `hits`. */
  function GroupHits(hits: seq<SearchDocument>): Grouped
  {
    if hits == [] then [] else AddHit(GroupHits(hits[..|hits| - 1]), hits[|hits| - 1])
  }

  /** The loop over the hits, filling the dictionary in place. */
  method GroupByDataset(hits: seq<SearchDocument>) returns (grouped: Grouped)
    ensures grouped == GroupHits(hits)
  {
    grouped := [];
    var i := 0;
    while i < |hits|
      invariant 0 <= i <= |hits|
      invariant grouped == GroupHits(hits[..i])
    {
      assert hits[..i + 1][..i] == hits[..i];
      var hit := hits[i];
      ghost var before := grouped;
      var k := GroupIndex(grouped, hit.datasetSource);
      if k.None? {
        grouped := grouped + [(hit.datasetSource, DatasetHits(hit.version, []))];
        k := Some(|grouped| - 1);
      }
      var entry := grouped[k.value];
      grouped := grouped[k.value := (entry.0, entry.1.(items := entry.1.items + [ItemOf(hit)]))];
      if GroupIndex(before, hit.datasetSource).None? {
        assert [] + [ItemOf(hit)] == [ItemOf(hit)];
        assert grouped == before + [(hit.datasetSource, DatasetHits(hit.version, [ItemOf(hit)]))];
      }
      assert grouped == AddHit(before, hit);
      i := i + 1;
    }
    assert hits[..|hits|] == hits;
  }

  /** The items of the hits from `dataset`, in hit order. */
  function HitsFrom(hits: seq<SearchDocument>, dataset: string): seq<SearchItem>
  {
    if hits == [] then []
    else HitsFrom(hits[..|hits| - 1], dataset) + (if hits[|hits| - 1].datasetSource == dataset then [ItemOf(hits[|hits| - 1])] else [])
  }

  /** The version of the first hit from `dataset`. */
  function FirstVersion(hits: seq<SearchDocument>, dataset: string): Option<string>
  {
    if hits == [] then None
    else match FirstVersion(hits[..|hits| - 1], dataset)
      case Some(v) => Some(v)
      case None => if hits[|hits| - 1].datasetSource == dataset then Some(hits[|hits| - 1].version) else None
  }

  function Datasets(grouped: Grouped): set<string>
  {
    set i | 0 <= i < |grouped| :: grouped[i].0
  }

  function Sources(hits: seq<SearchDocument>): set<string>
  {
    set i | 0 <= i < |hits| :: hits[i].datasetSource
  }

  /**
   * The grouping is right: one group per dataset among the hits, each
   * holding that dataset's hits in hit order and the version of its first
   * hit.
   */
  ghost predicate GroupedAs(grouped: Grouped, hits: seq<SearchDocument>)
  {
    (forall i, j :: 0 <= i < j < |grouped| ==> grouped[i].0 != grouped[j].0) &&
    Datasets(grouped) == Sources(hits) &&
    forall k :: 0 <= k < |grouped| ==>
      grouped[k].1.items == HitsFrom(hits, grouped[k].0) && FirstVersion(hits, grouped[k].0) == Some(grouped[k].1.version)
  }

  lemma SourcesSnoc(hits: seq<SearchDocument>, hit: SearchDocument)
    ensures Sources(hits + [hit]) == Sources(hits) + {hit.datasetSource}
  {
    var hits' := hits + [hit];
    forall d | d in Sources(hits') ensures d in Sources(hits) + {hit.datasetSource} {
      var i :| 0 <= i < |hits'| && hits'[i].datasetSource == d;
      if i < |hits| { assert hits[i] == hits'[i]; }
    }
    forall d | d in Sources(hits) ensures d in Sources(hits') {
      var i :| 0 <= i < |hits| && hits[i].datasetSource == d;
      assert hits'[i] == hits[i];
    }
    assert hits'[|hits|] == hit;
  }

  lemma {:induction false} NoHitsFrom(hits: seq<SearchDocument>, dataset: string)
    requires dataset !in Sources(hits)
    ensures HitsFrom(hits, dataset) == [] && FirstVersion(hits, dataset) == None
  {
    if hits != [] {
      var front := hits[..|hits| - 1];
      SourcesSnoc(front, hits[|hits| - 1]);
      assert front + [hits[|hits| - 1]] == hits;
      NoHitsFrom(front, dataset);
    }
  }

  lemma {:induction false} AddHitNewDataset(grouped: Grouped, hits: seq<SearchDocument>, hit: SearchDocument)
    requires GroupedAs(grouped, hits)
    requires GroupIndex(grouped, hit.datasetSource).None?
    ensures GroupedAs(AddHit(grouped, hit), hits + [hit])
  {
    var hits' := hits + [hit];
    assert hits'[..|hits'| - 1] == hits;
    SourcesSnoc(hits, hit);
    assert hit.datasetSource !in Datasets(grouped);
    NoHitsFrom(hits, hit.datasetSource);
    var added := (hit.datasetSource, DatasetHits(hit.version, [ItemOf(hit)]));
    var grouped' := AddHit(grouped, hit);
    assert grouped' == grouped + [added];
    assert Datasets(grouped') == Datasets(grouped) + {hit.datasetSource} by {
      forall d | d in Datasets(grouped') ensures d in Datasets(grouped) + {hit.datasetSource} {
        var i :| 0 <= i < |grouped'| && grouped'[i].0 == d;
        if i < |grouped| { assert grouped[i] == grouped'[i]; }
      }
      forall d | d in Datasets(grouped) ensures d in Datasets(grouped') {
        var i :| 0 <= i < |grouped| && grouped[i].0 == d;
        assert grouped'[i] == grouped[i];
      }
      assert grouped'[|grouped|] == added;
    }
    forall k | 0 <= k < |grouped'|
      ensures grouped'[k].1.items == HitsFrom(hits', grouped'[k].0) && FirstVersion(hits', grouped'[k].0) == Some(grouped'[k].1.version)
    {
      if k < |grouped| {
        assert grouped'[k] == grouped[k];
      }
    }
  }

  lemma {:induction false} AddHitKnownDataset(grouped: Grouped, hits: seq<SearchDocument>, hit: SearchDocument)
    requires GroupedAs(grouped, hits)
    requires GroupIndex(grouped, hit.datasetSource).Some?
    ensures GroupedAs(AddHit(grouped, hit), hits + [hit])
  {
    var hits' := hits + [hit];
    assert hits'[..|hits'| - 1] == hits;
    SourcesSnoc(hits, hit);
    var k := GroupIndex(grouped, hit.datasetSource).value;
    var grouped' := AddHit(grouped, hit);
    assert grouped' == grouped[k := (grouped[k].0, grouped[k].1.(items := grouped[k].1.items + [ItemOf(hit)]))];
    assert Datasets(grouped') == Datasets(grouped) by {
      forall d | d in Datasets(grouped') ensures d in Datasets(grouped) {
        var i :| 0 <= i < |grouped'| && grouped'[i].0 == d;
        assert grouped[i].0 == d;
      }
      forall d | d in Datasets(grouped) ensures d in Datasets(grouped') {
        var i :| 0 <= i < |grouped| && grouped[i].0 == d;
        assert grouped'[i].0 == d;
      }
    }
    assert hit.datasetSource in Sources(hits) by {
      assert grouped[k].0 in Datasets(grouped);
    }
  }

  lemma {:induction false} GroupHitsGroups(hits: seq<SearchDocument>)
    ensures GroupedAs(GroupHits(hits), hits)
  {
    if hits != [] {
      var front := hits[..|hits| - 1];
      var hit := hits[|hits| - 1];
      GroupHitsGroups(front);
      assert front + [hit] == hits;
      if GroupIndex(GroupHits(front), hit.datasetSource).None? {
        AddHitNewDataset(GroupHits(front), front, hit);
      } else {
        AddHitKnownDataset(GroupHits(front), front, hit);
      }
    }
  }

  /**
   * `results_by_dataset`: its keys are distinct and are exactly the
   * datasets of the hits; each dataset's items are its hits in hit order,
   * and its version is the version of its first hit.
   */
  lemma GroupingIsByDataset(hits: seq<SearchDocument>, k: nat)
    requires k < |GroupHits(hits)|
    ensures var grouped := GroupHits(hits);
      (forall j :: 0 <= j < |grouped| && j != k ==> grouped[j].0 != grouped[k].0) &&
      grouped[k].1.items == HitsFrom(hits, grouped[k].0) &&
      FirstVersion(hits, grouped[k].0) == Some(grouped[k].1.version)
  {
    GroupHitsGroups(hits);
  }

  lemma DatasetsAreTheSources(hits: seq<SearchDocument>)
    ensures Datasets(GroupHits(hits)) == Sources(hits)
  {
    GroupHitsGroups(hits);
  }

  function ItemCount(grouped: Grouped): nat
  {
    if grouped == [] then 0 else ItemCount(grouped[..|grouped| - 1]) + |grouped[|grouped| - 1].1.items|
  }

  lemma ItemCountSnoc(grouped: Grouped, entry: (string, DatasetHits))
    ensures ItemCount(grouped + [entry]) == ItemCount(grouped) + |entry.1.items|
  {
    assert (grouped + [entry])[..|grouped|] == grouped;
  }

  lemma {:induction false} ItemCountUpdate(grouped: Grouped, k: nat, entry: (string, DatasetHits))
    requires k < |grouped|
    ensures ItemCount(grouped[k := entry]) + |grouped[k].1.items| == ItemCount(grouped) + |entry.1.items|
  {
    var n := |grouped| - 1;
    var front := grouped[..n];
    assert grouped == front + [grouped[n]];
    if k == n {
      assert grouped[k := entry] == front + [entry];
      ItemCountSnoc(front, entry);
      ItemCountSnoc(front, grouped[n]);
    } else {
      ItemCountUpdate(front, k, entry);
      assert grouped[k := entry] == front[k := entry] + [grouped[n]];
      ItemCountSnoc(front[k := entry], grouped[n]);
      ItemCountSnoc(front, grouped[n]);
    }
  }

  /** No hit is lost or doubled: the groups hold as many items as there are hits. */
  lemma {:induction false} GroupingKeepsEveryHit(hits: seq<SearchDocument>)
    ensures ItemCount(GroupHits(hits)) == |hits|
  {
    if hits != [] {
      var front := hits[..|hits| - 1];
      var hit := hits[|hits| - 1];
      var grouped := GroupHits(front);
      GroupingKeepsEveryHit(front);
      match GroupIndex(grouped, hit.datasetSource)
      case None =>
        ItemCountSnoc(grouped, (hit.datasetSource, DatasetHits(hit.version, [ItemOf(hit)])));
      case Some(k) =>
        ItemCountUpdate(grouped, k, (grouped[k].0, grouped[k].1.(items := grouped[k].1.items + [ItemOf(hit)])));
    }
  }

  // ---------------------------------------------------------------------
  // The endpoint

  /**
   * `full_text_search`: 503 when the backend did not connect at start-up;
   * 400 when `query` is empty or absent; 400 when a non-empty `from_date`
   * does not read as a `YYYY-MM-DD` date (`parseDate`); 500 when the search
   * itself raises (`backend` answers None); otherwise the hits grouped by
   * dataset, with the backend's hit count.
   */
  method FullTextSearch(available: bool, query: string, fromDate: Option<string>,
                        parseDate: string -> Option<int>, backend: seq<Condition> -> Option<SearchResponse>)
    returns (out: SearchOutcome)
    ensures out == Unavailable <==> !available
    ensures out == MissingQuery <==> available && query == ""
    ensures out == BadDate <==>
      available && query != "" && fromDate.Some? && fromDate.value != "" && parseDate(fromDate.value).None?
    ensures (available && query != "" && (fromDate.Some? && fromDate.value != "" ==> parseDate(fromDate.value).Some?)) ==>
      out.SearchFailed? || out.Found?
    ensures out.SearchFailed? || out.Found? ==>
      available && query != "" &&
      var since := if fromDate.Some? && fromDate.value != "" then parseDate(fromDate.value) else None;
      (fromDate.Some? && fromDate.value != "" ==> since.Some?) &&
      var response := backend(Conditions(query, since));
      (out.SearchFailed? <==> response.None?) &&
      (out.Found? ==> out.answer == SearchAnswer(query, fromDate, response.value.total, GroupHits(response.value.hits)))
  {
    if !available {
      return Unavailable;
    }
    if query == "" {
      return MissingQuery;
    }
    var since: Option<int> := None;
    if fromDate.Some? && fromDate.value != "" {
      since := parseDate(fromDate.value);
      if since.None? {
        return BadDate;
      }
    }
    var response := backend(Conditions(query, since));
    if response.None? {
      return SearchFailed;
    }
    var grouped := GroupByDataset(response.value.hits);
    out := Found(SearchAnswer(query, fromDate, response.value.total, grouped));
  }
}
