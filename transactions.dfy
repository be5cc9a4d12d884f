/**
 * Materialising the TRANSACTIONS_COMPLETED dataset into the transaction
 * table: the per-item normalisation with its defaults, the per-file and
 * per-item fault isolation, and the load-when-empty rule of the
 * transaction endpoints.
 */
module Transactions {
  import opened Values
  import opened Models
  import Access
  import Loading

  /** The dataset the transaction table is loaded from and guarded by. */
  const Completed: string := "TRANSACTIONS_COMPLETED"

  /** The text the code substitutes for a missing text field. */
  const Unknown: string := "Unknown"

  /**
   * The parsers the normalisation relies on: `strptime` with the ISO
   * layout "%Y-%m-%dT%H:%M:%S.%fZ" (giving a time in microseconds), and
   * `float()` applied to a string. Each answers None where Python raises.
   */
  datatype Parsers = Parsers(timestamp: string -> Option<int>, decimal: string -> Option<real>)

  /** `float(v)`: numbers as they are, booleans as 1 and 0, strings parsed; other values raise. */
  function ToFloat(v: Json, decimal: string -> Option<real>): (r: Option<real>)
    ensures v.JNum? ==> r == Some(v.n)
    ensures v.JNull? || v.JArr? || v.JObj? ==> r.None?
  {
    match v
    case JNum(n) => Some(n)
    case JBool(b) => Some(if b then 1.0 else 0.0)
    case JStr(s) => decimal(s)
    case _ => None
  }

  /** `int(x)` of a real: truncation toward zero. */
  function Truncate(x: real): (i: int)
    ensures 0.0 <= x ==> i as real <= x < i as real + 1.0
    ensures x < 0.0 ==> i as real - 1.0 < x <= i as real
  {
    if x >= 0.0 then x.Floor else -((-x).Floor)
  }

  /** A field holding something other than a string, where a string is required. */
  predicate BadText(m: map<string, Json>, key: string)
  {
    key in m && !m[key].JStr?
  }

  /** A nullable field holding something other than a string or null. */
  predicate BadNullableText(m: map<string, Json>, key: string)
  {
    key in m && !m[key].JStr? && !m[key].JNull?
  }

  /** A non-nullable text column: the string given, or "Unknown" when the key is absent. */
  function TextColumn(m: map<string, Json>, key: string): (r: Option<string>)
    ensures r.None? <==> BadText(m, key)
    ensures r.Some? && key in m ==> m[key] == JStr(r.value)
    ensures r.Some? && key !in m ==> r.value == Unknown
  {
    match Get(m, key, JStr(Unknown))
    case JStr(s) => Some(s)
    case _ => None
  }

  /** A nullable text column: as above, with JSON null stored as NULL. */
  function NullableTextColumn(m: map<string, Json>, key: string): (r: Option<Option<string>>)
    ensures r.None? <==> BadNullableText(m, key)
    ensures r.Some? && key !in m ==> r.value == Some(Unknown)
    ensures r.Some? && key in m ==> (m[key] == JNull <==> r.value.None?)
    ensures r.Some? && key in m && r.value.Some? ==> m[key] == JStr(r.value.value)
  {
    match Get(m, key, JStr(Unknown))
    case JStr(s) => Some(Some(s))
    case JNull => Some(None)
    case _ => None
  }

  /** `item.get('LOCATION', {}).get('COUNTRY', 'Unknown')` */
  function CountryColumn(m: map<string, Json>): (r: Option<string>)
    ensures r.None? <==> "LOCATION" in m && (!m["LOCATION"].JObj? || BadText(m["LOCATION"].fields, "COUNTRY"))
    ensures r.Some? && "LOCATION" !in m ==> r.value == Unknown
    ensures r.Some? && "LOCATION" in m ==> m["LOCATION"].JObj?
    ensures r.Some? && "LOCATION" in m && "COUNTRY" in m["LOCATION"].fields ==> m["LOCATION"].fields["COUNTRY"] == JStr(r.value)
    ensures r.Some? && "LOCATION" in m && "COUNTRY" !in m["LOCATION"].fields ==> r.value == Unknown
  {
    match Get(m, "LOCATION", JObj(map[]))
    case JObj(loc) => TextColumn(loc, "COUNTRY")
    case _ => None
  }

  /** The rating: a missing or null rating is 0; a number is truncated to an integer. */
  function RatingColumn(m: map<string, Json>): (r: Option<int>)
    ensures r.None? <==> "CUSTOMER_RATING" in m && !(m["CUSTOMER_RATING"].JNull? || m["CUSTOMER_RATING"].JNum? || m["CUSTOMER_RATING"].JBool?)
    ensures Get(m, "CUSTOMER_RATING", JNull) == JNull ==> r == Some(0)
    ensures "CUSTOMER_RATING" in m && m["CUSTOMER_RATING"].JNum? ==> r == Some(Truncate(m["CUSTOMER_RATING"].n))
  {
    match Get(m, "CUSTOMER_RATING", JNull)
    case JNull => Some(0)
    case JNum(n) => Some(Truncate(n))
    case JBool(b) => Some(if b then 1 else 0)
    case _ => None
  }

  /**
   * The timestamp as the code computes it: a truthy value is parsed. For a
   * missing or falsy value the code calls `datetime.now()`, but the
   * function-local `from datetime import datetime` of the other branch makes
   * `datetime` an unbound local there, so that call raises and the item
   * gets no row.
   */
  function TimestampColumn(m: map<string, Json>, p: Parsers): (r: Option<int>)
    ensures !Truthy(Get(m, "TIMESTAMP", JNull)) ==> r.None?
    ensures r.Some? <==> Truthy(Get(m, "TIMESTAMP", JNull)) && m["TIMESTAMP"].JStr? && p.timestamp(m["TIMESTAMP"].s).Some?
    ensures r.Some? ==> p.timestamp(m["TIMESTAMP"].s) == r
  {
    var v := Get(m, "TIMESTAMP", JNull);
    if !Truthy(v) then None
    else if v.JStr? then p.timestamp(v.s)
    else None
  }

  /** The timestamp as the code evidently means it: parsed when truthy, otherwise the ingestion clock `now`. */
  function IntendedTimestampColumn(m: map<string, Json>, now: int, p: Parsers): (r: Option<int>)
    ensures !Truthy(Get(m, "TIMESTAMP", JNull)) ==> r == Some(now)
    ensures Truthy(Get(m, "TIMESTAMP", JNull)) ==> r == TimestampColumn(m, p)
  {
    if !Truthy(Get(m, "TIMESTAMP", JNull)) then Some(now) else TimestampColumn(m, p)
  }

  /** The columns other than the timestamp that make building the row raise. */
  predicate BadColumns(m: map<string, Json>, p: Parsers)
  {
    BadText(m, "PAYMENT_METHOD") || BadText(m, "PRODUCT_CATEGORY") || BadText(m, "STATUS") ||
    BadNullableText(m, "USER_ID") || BadNullableText(m, "USER_NAME") || BadNullableText(m, "PRODUCT_ID") ||
    ("LOCATION" in m && (!m["LOCATION"].JObj? || BadText(m["LOCATION"].fields, "COUNTRY"))) ||
    ("CUSTOMER_RATING" in m && !(m["CUSTOMER_RATING"].JNull? || m["CUSTOMER_RATING"].JNum? || m["CUSTOMER_RATING"].JBool?)) ||
    ("AMOUNT" in m && ToFloat(m["AMOUNT"], p.decimal).None?)
  }

  /**
   * The items whose fields make building the row raise, listed field by
   * field independently of the normalisation itself: not an object, a bad
   * column, or a truthy timestamp that does not parse. A missing timestamp
   * is not among them.
   */
  predicate BadFields(item: Json, p: Parsers)
  {
    !item.JObj? ||
    var m := item.fields;
    BadColumns(m, p) ||
    (Truthy(Get(m, "TIMESTAMP", JNull)) && !(m["TIMESTAMP"].JStr? && p.timestamp(m["TIMESTAMP"].s).Some?))
  }

  /** The items for which the code as written creates no row: bad fields, or no truthy timestamp. */
  predicate Malformed(item: Json, p: Parsers)
  {
    BadFields(item, p) || !Truthy(Get(item.fields, "TIMESTAMP", JNull))
  }

  /**
   * The row an object's fields make once its timestamp column is known,
   * or None when one of the columns raises.
   */
  function BuildRow(m: map<string, Json>, timestamp: Option<int>, p: Parsers): (r: Option<Transaction>)
    ensures r.None? <==> BadColumns(m, p) || timestamp.None?
    ensures r.Some? ==> r.value == Transaction(
      TextColumn(m, "PAYMENT_METHOD").value, CountryColumn(m).value,
      TextColumn(m, "PRODUCT_CATEGORY").value, TextColumn(m, "STATUS").value,
      ToFloat(Get(m, "AMOUNT", JNum(0.0)), p.decimal).value, Some(RatingColumn(m).value),
      timestamp.value, NullableTextColumn(m, "USER_ID").value,
      NullableTextColumn(m, "USER_NAME").value, NullableTextColumn(m, "PRODUCT_ID").value)
  {
    var country := CountryColumn(m);
    var rating := RatingColumn(m);
    var amount := ToFloat(Get(m, "AMOUNT", JNum(0.0)), p.decimal);
    var payment := TextColumn(m, "PAYMENT_METHOD");
    var category := TextColumn(m, "PRODUCT_CATEGORY");
    var status := TextColumn(m, "STATUS");
    var userId := NullableTextColumn(m, "USER_ID");
    var userName := NullableTextColumn(m, "USER_NAME");
    var productId := NullableTextColumn(m, "PRODUCT_ID");
    if country.None? || rating.None? || timestamp.None? || amount.None? || payment.None? || category.None? ||
       status.None? || userId.None? || userName.None? || productId.None?
    then None
    else Some(Transaction(payment.value, country.value, category.value, status.value, amount.value,
                          Some(rating.value), timestamp.value, userId.value, userName.value, productId.value))
  }

  /**
   * `create_transaction_from_data` as written: the row an item becomes, or
   * None when building it raises (the error is swallowed and no row is
   * created). An item without a truthy timestamp always raises.
   */
  function CreateTransaction(item: Json, p: Parsers): (r: Option<Transaction>)
    ensures r.None? <==> Malformed(item, p)
    ensures r.Some? ==> item.JObj? && r == BuildRow(item.fields, TimestampColumn(item.fields, p), p)
  {
    if !item.JObj? then None else BuildRow(item.fields, TimestampColumn(item.fields, p), p)
  }

  /**
   * `create_transaction_from_data` as evidently intended: an item without a
   * truthy timestamp is stamped with the ingestion clock `now`.
   */
  function IntendedCreateTransaction(item: Json, now: int, p: Parsers): (r: Option<Transaction>)
    ensures r.None? <==> BadFields(item, p)
    ensures r.Some? ==> item.JObj? && r == BuildRow(item.fields, IntendedTimestampColumn(item.fields, now, p), p)
  {
    if !item.JObj? then None else BuildRow(item.fields, IntendedTimestampColumn(item.fields, now, p), p)
  }

  /**
   * An item with no timestamp gets no row as written, whatever its other
   * fields: `{"AMOUNT": 5}` is dropped, where the intended code stores it
   * stamped with the clock.
   */
  lemma MissingTimestampDropsItem(p: Parsers, now: int)
    ensures forall m: map<string, Json> :: !Truthy(Get(m, "TIMESTAMP", JNull)) ==> CreateTransaction(JObj(m), p).None?
    ensures var item := JObj(map["AMOUNT" := JNum(5.0)]);
      CreateTransaction(item, p).None? &&
      IntendedCreateTransaction(item, now, p) ==
        Some(Transaction(Unknown, Unknown, Unknown, Unknown, 5.0, Some(0), now, Some(Unknown), Some(Unknown), Some(Unknown)))
  {
    var item := JObj(map["AMOUNT" := JNum(5.0)]);
    assert !BadFields(item, p);
  }

  /** Where the item carries a truthy timestamp, the code as written and as intended agree. */
  lemma TimestampedItemsAgree(item: Json, now: int, p: Parsers)
    requires item.JObj? && Truthy(Get(item.fields, "TIMESTAMP", JNull))
    ensures CreateTransaction(item, p) == IntendedCreateTransaction(item, now, p)
  {
  }

  /**
   * The defaults of the normalisation, field by field: a missing text field
   * is "Unknown" and a present one is kept; the country is read inside
   * LOCATION; the rating is never null and is 0 when missing or null; a
   * missing amount is 0; the timestamp is the parsed field.
   */
  lemma NormalisationDefaults(item: Json, p: Parsers)
    requires CreateTransaction(item, p).Some?
    ensures item.JObj?
    ensures var m := item.fields; var t := CreateTransaction(item, p).value;
      ("PAYMENT_METHOD" !in m ==> t.paymentMethod == Unknown) &&
      ("PAYMENT_METHOD" in m ==> m["PAYMENT_METHOD"] == JStr(t.paymentMethod)) &&
      ("PRODUCT_CATEGORY" !in m ==> t.productCategory == Unknown) &&
      ("PRODUCT_CATEGORY" in m ==> m["PRODUCT_CATEGORY"] == JStr(t.productCategory)) &&
      ("STATUS" !in m ==> t.status == Unknown) &&
      ("STATUS" in m ==> m["STATUS"] == JStr(t.status))
    ensures var m := item.fields; var t := CreateTransaction(item, p).value;
      ("USER_ID" !in m ==> t.userId == Some(Unknown)) &&
      ("USER_NAME" !in m ==> t.userName == Some(Unknown)) &&
      ("PRODUCT_ID" !in m ==> t.productId == Some(Unknown)) &&
      ("USER_NAME" in m ==> (m["USER_NAME"] == JNull <==> t.userName.None?))
    ensures var m := item.fields; var t := CreateTransaction(item, p).value;
      ("LOCATION" !in m ==> t.country == Unknown) &&
      ("LOCATION" in m ==> m["LOCATION"].JObj?) &&
      ("LOCATION" in m && "COUNTRY" !in m["LOCATION"].fields ==> t.country == Unknown)
    ensures var m := item.fields; var t := CreateTransaction(item, p).value;
      t.customerRating.Some? &&
      (Get(m, "CUSTOMER_RATING", JNull) == JNull ==> t.customerRating == Some(0)) &&
      ("AMOUNT" !in m ==> t.amount == 0.0)
    ensures var m := item.fields; var t := CreateTransaction(item, p).value;
      Truthy(Get(m, "TIMESTAMP", JNull)) && m["TIMESTAMP"].JStr? && p.timestamp(m["TIMESTAMP"].s) == Some(t.timestamp)
  {
  }

  /** The same defaults for the intended code, with the clock `now` for a missing or empty timestamp. */
  lemma IntendedNormalisationDefaults(item: Json, now: int, p: Parsers)
    requires IntendedCreateTransaction(item, now, p).Some?
    ensures item.JObj?
    ensures var m := item.fields; var t := IntendedCreateTransaction(item, now, p).value;
      ("PAYMENT_METHOD" !in m ==> t.paymentMethod == Unknown) &&
      ("PRODUCT_CATEGORY" !in m ==> t.productCategory == Unknown) &&
      ("STATUS" !in m ==> t.status == Unknown) &&
      ("LOCATION" !in m ==> t.country == Unknown) &&
      (Get(m, "CUSTOMER_RATING", JNull) == JNull ==> t.customerRating == Some(0)) &&
      ("AMOUNT" !in m ==> t.amount == 0.0)
    ensures var m := item.fields; var t := IntendedCreateTransaction(item, now, p).value;
      (!Truthy(Get(m, "TIMESTAMP", JNull)) ==> t.timestamp == now) &&
      (Truthy(Get(m, "TIMESTAMP", JNull)) ==> m["TIMESTAMP"].JStr? && p.timestamp(m["TIMESTAMP"].s) == Some(t.timestamp))
  {
  }

  /** The rows a sequence of items becomes, item after item, failing items dropped. */
  function RowsFromItems(items: seq<Json>, p: Parsers): seq<Transaction>
  {
    if items == [] then []
    else
      var front := RowsFromItems(items[..|items| - 1], p);
      match CreateTransaction(items[|items| - 1], p)
      case None => front
      case Some(t) => front + [t]
  }

  lemma RowsFromItemsStep(start: seq<Transaction>, items: seq<Json>, j: nat, p: Parsers)
    requires j < |items|
    ensures start + RowsFromItems(items[..j + 1], p) ==
      match CreateTransaction(items[j], p)
      case None => start + RowsFromItems(items[..j], p)
      case Some(t) => (start + RowsFromItems(items[..j], p)) + [t]
  {
    assert items[..j + 1][..j] == items[..j];
    var done := RowsFromItems(items[..j], p);
    match CreateTransaction(items[j], p)
    case None =>
    case Some(t) =>
      assert start + (done + [t]) == (start + done) + [t];
  }

  /** Normalising distributes over concatenating two item sequences. */
  lemma {:induction false} RowsFromItemsAppend(a: seq<Json>, b: seq<Json>, p: Parsers)
    ensures RowsFromItems(a + b, p) == RowsFromItems(a, p) + RowsFromItems(b, p)
    decreases |b|
  {
    if b == [] {
      assert a + b == a;
    } else {
      var b' := b[..|b| - 1];
      assert (a + b)[..|a + b| - 1] == a + b';
      assert (a + b)[|a + b| - 1] == b[|b| - 1];
      RowsFromItemsAppend(a, b', p);
    }
  }

  /**
   * An item that raises costs only its own row: the rows of the items
   * around it are created as if it were not there.
   */
  lemma MalformedItemIsSkipped(before: seq<Json>, bad: Json, after: seq<Json>, p: Parsers)
    requires Malformed(bad, p)
    ensures RowsFromItems(before + [bad] + after, p) == RowsFromItems(before + after, p)
  {
    RowsFromItemsAppend(before + [bad], after, p);
    RowsFromItemsAppend(before, [bad], p);
    RowsFromItemsAppend(before, after, p);
    assert [bad][..0] == [];
  }

  /** When no item raises, there is one row per item, in item order. */
  lemma {:induction false} RowsOnePerItem(items: seq<Json>, p: Parsers)
    requires forall i :: 0 <= i < |items| ==> !Malformed(items[i], p)
    ensures |RowsFromItems(items, p)| == |items|
    ensures forall i :: 0 <= i < |items| ==> Some(RowsFromItems(items, p)[i]) == CreateTransaction(items[i], p)
  {
    if items != [] {
      var n := |items| - 1;
      RowsOnePerItem(items[..n], p);
    }
  }

  /** The rows one directory entry of the dataset folder yields. */
  function FileRows(e: Entry, p: Parsers): seq<Transaction>
  {
    if e.File? && IsJsonName(e.name) && e.content.Loaded? then RowsFromItems(FileItems(e.content.value), p) else []
  }

  /** The rows a whole dataset folder yields, file after file. */
  function Ingest(listing: seq<Entry>, p: Parsers): seq<Transaction>
  {
    if listing == [] then []
    else Ingest(listing[..|listing| - 1], p) + FileRows(listing[|listing| - 1], p)
  }

  /**
   * Ingestion is normalisation of the flattened folder: the rows are those
   * of the records `load_data_for_dataset` would return, in that order.
   * A file that fails to decode is thus skipped whole (Loading.FailedFileIsSkipped)
   * and an item that raises is skipped alone (MalformedItemIsSkipped).
   */
  lemma {:induction false} IngestIsNormalisedFlatten(listing: seq<Entry>, p: Parsers)
    ensures Ingest(listing, p) == RowsFromItems(Loading.Flatten(listing), p)
  {
    if listing != [] {
      var n := |listing| - 1;
      IngestIsNormalisedFlatten(listing[..n], p);
      RowsFromItemsAppend(Loading.Flatten(listing[..n]), Loading.Contribution(listing[n]), p);
    }
  }

  lemma IngestStep(start: seq<Transaction>, listing: seq<Entry>, i: nat, p: Parsers)
    requires i < |listing|
    ensures start + Ingest(listing[..i + 1], p) == (start + Ingest(listing[..i], p)) + FileRows(listing[i], p)
  {
    assert listing[..i + 1][..i] == listing[..i];
    var done := Ingest(listing[..i], p);
    var here := FileRows(listing[i], p);
    assert start + (done + here) == (start + done) + here;
  }

  /** What loading the lake into an empty table yields: nothing when the folder is missing or a file. */
  function LakeRows(lake: Option<seq<Entry>>, p: Parsers): seq<Transaction>
  {
    match SubFolder(lake, Completed)
    case None => []
    case Some(listing) => Ingest(listing, p)
  }

  /** The dataset path exists but is a plain file: listing it raises. */
  predicate CompletedIsFile(lake: Option<seq<Entry>>)
  {
    lake.Some? && FindEntry(lake.value, Completed).Some? && FindEntry(lake.value, Completed).value.File?
  }

  /** The transaction table. */
  class TransactionStore {
    var rows: seq<Transaction>

    constructor ()
      ensures rows == []
    {
      rows := [];
    }

    /** `Transaction.objects.create`: appends one row. */
    method Create(t: Transaction)
      modifies this
      ensures rows == old(rows) + [t]
    {
      rows := rows + [t];
    }

    /**
     * `process_transaction_data`: a list is created item by item, any other
     * value as one item; an item that raises creates nothing.
     */
    method ProcessTransactionData(data: Json, p: Parsers)
      modifies this
      ensures rows == old(rows) + RowsFromItems(FileItems(data), p)
    {
      var items := FileItems(data);
      ghost var start := rows;
      var j := 0;
      while j < |items|
        invariant 0 <= j <= |items|
        invariant rows == start + RowsFromItems(items[..j], p)
      {
        RowsFromItemsStep(start, items, j, p);
        var t := CreateTransaction(items[j], p);
        if t.Some? {
          Create(t.value);
        }
        j := j + 1;
      }
      assert items[..|items|] == items;
    }

    /**
     * `load_data_from_lake`: nothing without the access right or when the
     * folder is missing; raises (`crashed`) when the path is a file;
     * otherwise appends the rows of every ".json" file, item by item.
     */
    method LoadDataFromLake(rights: seq<AccessRight>, user: string, lake: Option<seq<Entry>>, p: Parsers)
      returns (crashed: bool)
      modifies this
      ensures crashed <==> Access.CheckDatasetAccess(rights, user, Completed) && CompletedIsFile(lake)
      ensures !Access.CheckDatasetAccess(rights, user, Completed) ==> rows == old(rows)
      ensures Access.CheckDatasetAccess(rights, user, Completed) ==> rows == old(rows) + LakeRows(lake, p)
    {
      if !Access.CheckDatasetAccess(rights, user, Completed) {
        return false;
      }
      if lake.None? || FindEntry(lake.value, Completed).None? {
        return false;
      }
      var entry := FindEntry(lake.value, Completed).value;
      if entry.File? {
        return true;
      }
      LoadFolder(entry.children, p);
      crashed := false;
    }

    /** The loop over the entries of the dataset folder. */
    method LoadFolder(listing: seq<Entry>, p: Parsers)
      modifies this
      ensures rows == old(rows) + Ingest(listing, p)
    {
      ghost var start := rows;
      var i := 0;
      while i < |listing|
        invariant 0 <= i <= |listing|
        invariant rows == start + Ingest(listing[..i], p)
      {
        IngestStep(start, listing, i, p);
        LoadFile(listing[i], p);
        i := i + 1;
      }
      assert listing[..|listing|] == listing;
    }

    /** One entry of the folder: only a decodable ".json" file is read; a decoding error is reported and skipped. */
    method LoadFile(e: Entry, p: Parsers)
      modifies this
      ensures rows == old(rows) + FileRows(e, p)
    {
      if e.File? && IsJsonName(e.name) && e.content.Loaded? {
        ProcessTransactionData(e.content.value, p);
      }
    }

    /**
     * The load-when-empty rule: with the access right and an empty table
     * the lake is loaded; a table holding any row is left as it is.
     */
    method EnsureLoaded(rights: seq<AccessRight>, user: string, lake: Option<seq<Entry>>, p: Parsers)
      returns (crashed: bool)
      modifies this
      ensures old(rows) != [] ==> rows == old(rows) && !crashed
      ensures old(rows) == [] && Access.CheckDatasetAccess(rights, user, Completed) ==>
        rows == LakeRows(lake, p) && (crashed <==> CompletedIsFile(lake))
      ensures !Access.CheckDatasetAccess(rights, user, Completed) ==> rows == old(rows) && !crashed
    {
      crashed := false;
      if rows == [] {
        crashed := LoadDataFromLake(rights, user, lake, p);
      }
    }

    /**
     * `get_queryset`: no rows without the access right; otherwise the whole
     * table, loaded first if it is empty.
     */
    method GetQueryset(rights: seq<AccessRight>, user: string, lake: Option<seq<Entry>>, p: Parsers)
      returns (visible: seq<Transaction>, crashed: bool)
      modifies this
      ensures !Access.CheckDatasetAccess(rights, user, Completed) ==> visible == [] && rows == old(rows) && !crashed
      ensures Access.CheckDatasetAccess(rights, user, Completed) && old(rows) != [] ==>
        visible == rows == old(rows) && !crashed
      ensures Access.CheckDatasetAccess(rights, user, Completed) && old(rows) == [] ==>
        rows == LakeRows(lake, p) && (crashed <==> CompletedIsFile(lake)) && (!crashed ==> visible == rows)
    {
      if !Access.CheckDatasetAccess(rights, user, Completed) {
        return [], false;
      }
      crashed := EnsureLoaded(rights, user, lake, p);
      visible := if crashed then [] else rows;
    }
  }
}
