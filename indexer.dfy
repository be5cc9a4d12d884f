/**
 * The `index_data` management command: every data-lake version, every
 * dataset folder of it, every ".json" file of that folder, every record of
 * that file becomes a document of the search index, saved under an id made
 * of the version, the dataset and the record's transaction id.
 */
module Indexer {
  import opened Values
  import opened Models
  import opened Documents
  import Transactions

  /** `f"{version.name}_{dataset_name}_{transaction_id}"`. */
  function DocumentId(versionName: string, datasetName: string, transactionId: string): (id: string)
    ensures |id| == |versionName| + |datasetName| + |transactionId| + 2
    ensures id[..|versionName|] == versionName && id[|versionName|] == '_'
    ensures id[|id| - |transactionId|..] == transactionId
  {
    versionName + "_" + datasetName + "_" + transactionId
  }

  /** Within one version and one dataset, distinct transaction ids give distinct document ids. */
  lemma DocumentIdInjective(versionName: string, datasetName: string, a: string, b: string)
    requires DocumentId(versionName, datasetName, a) == DocumentId(versionName, datasetName, b)
    ensures a == b
  {
    var ida := DocumentId(versionName, datasetName, a);
    assert a == ida[|versionName| + |datasetName| + 2..];
    assert b == ida[|versionName| + |datasetName| + 2..];
  }

  /**
   * Across versions and datasets ids are not unique: version "v_1" with
   * dataset "d" and version "v" with dataset "1_d" give the same id to a
   * record, so indexing the second replaces the document of the first.
   */
  lemma DocumentIdsCanCollide()
    ensures DocumentId("v_1", "d", "t") == DocumentId("v", "1_d", "t")
    ensures ("v_1", "d") != ("v", "1_d")
  {
  }

  /** The text an f-string gives a decoded value; a string as it is, anything else through `render`. */
  function IdText(v: Json, render: Json -> string): (t: string)
    ensures v.JStr? ==> t == v.s
  {
    if v.JStr? then v.s else render(v)
  }

  /** The transaction id part of a record's document id, `''` when the record has none. */
  function ItemIdText(m: map<string, Json>, render: Json -> string): string
  {
    IdText(Get(m, "TRANSACTION_ID", JStr("")), render)
  }

  /** A record whose indexing raises: not an object, a truthy timestamp that does not parse, a location that is not an object, an amount `float()` refuses. */
  predicate Broken(item: Json, p: Transactions.Parsers)
  {
    !item.JObj? ||
    var m := item.fields;
    (Truthy(Get(m, "TIMESTAMP", JNull)) && !(m["TIMESTAMP"].JStr? && p.timestamp(m["TIMESTAMP"].s).Some?)) ||
    ("LOCATION" in m && !m["LOCATION"].JObj?) ||
    Transactions.ToFloat(Get(m, "AMOUNT", JNum(0.0)), p.decimal).None?
  }

  /**
   * The document a record becomes, or None when building it raises. Text
   * fields default to `''`, the country is `LOCATION.COUNTRY` (`''` when
   * either is missing), the rating is 0 only when the key is absent, the
   * amount 0 when absent; the timestamp is parsed only when truthy.
   */
  function ToDocument(item: Json, versionName: string, datasetName: string, p: Transactions.Parsers): (r: Option<SearchDocument>)
    ensures r.None? <==> Broken(item, p)
    ensures r.Some? ==> r.value.datasetSource == datasetName && r.value.version == versionName
  {
    if !item.JObj? then None
    else
      var m := item.fields;
      var raw := Get(m, "TIMESTAMP", JNull);
      var amount := Transactions.ToFloat(Get(m, "AMOUNT", JNum(0.0)), p.decimal);
      if Truthy(raw) && !(raw.JStr? && p.timestamp(raw.s).Some?) then None
      else if "LOCATION" in m && !m["LOCATION"].JObj? then None
      else if amount.None? then None
      else
        var timestamp := if Truthy(raw) then ParsedTime(p.timestamp(raw.s).value) else RawTime(raw);
        var location := Get(m, "LOCATION", JObj(map[]));
        Some(SearchDocument(
          Get(m, "TRANSACTION_ID", JStr("")), Get(m, "PAYMENT_METHOD", JStr("")),
          Get(location.fields, "COUNTRY", JStr("")), Get(m, "PRODUCT_CATEGORY", JStr("")),
          Get(m, "STATUS", JStr("")), amount.value, Get(m, "CUSTOMER_RATING", JNum(0.0)), timestamp,
          Get(m, "USER_ID", JStr("")), Get(m, "USER_NAME", JStr("")), Get(m, "PRODUCT_ID", JStr("")),
          datasetName, versionName))
  }

  /**
   * The fields of a record's document: text fields default to `''`, the
   * country is `LOCATION.COUNTRY` (`''` when either is missing), the rating
   * is 0 only when the key is absent (a null stays null), the amount 0 when
   * absent; the timestamp is parsed only when truthy and otherwise kept as
   * given, never replaced by the clock.
   */
  lemma DocumentFields(item: Json, versionName: string, datasetName: string, p: Transactions.Parsers)
    requires ToDocument(item, versionName, datasetName, p).Some?
    ensures item.JObj?
    ensures var m := item.fields; var d := ToDocument(item, versionName, datasetName, p).value;
      (d.transactionId == if "TRANSACTION_ID" in m then m["TRANSACTION_ID"] else JStr("")) &&
      (d.paymentMethod == if "PAYMENT_METHOD" in m then m["PAYMENT_METHOD"] else JStr("")) &&
      (d.productCategory == if "PRODUCT_CATEGORY" in m then m["PRODUCT_CATEGORY"] else JStr("")) &&
      (d.status == if "STATUS" in m then m["STATUS"] else JStr("")) &&
      (d.userId == if "USER_ID" in m then m["USER_ID"] else JStr("")) &&
      (d.userName == if "USER_NAME" in m then m["USER_NAME"] else JStr("")) &&
      (d.productId == if "PRODUCT_ID" in m then m["PRODUCT_ID"] else JStr(""))
    ensures var m := item.fields; var d := ToDocument(item, versionName, datasetName, p).value;
      ("LOCATION" !in m ==> d.country == JStr("")) &&
      ("LOCATION" in m && "COUNTRY" !in m["LOCATION"].fields ==> d.country == JStr("")) &&
      ("LOCATION" in m && "COUNTRY" in m["LOCATION"].fields ==> d.country == m["LOCATION"].fields["COUNTRY"])
    ensures var m := item.fields; var d := ToDocument(item, versionName, datasetName, p).value;
      ("CUSTOMER_RATING" !in m ==> d.customerRating == JNum(0.0)) &&
      ("CUSTOMER_RATING" in m ==> d.customerRating == m["CUSTOMER_RATING"]) &&
      ("AMOUNT" !in m ==> d.amount == 0.0) &&
      ("AMOUNT" in m && m["AMOUNT"].JNum? ==> d.amount == m["AMOUNT"].n)
    ensures var v := Get(item.fields, "TIMESTAMP", JNull); var d := ToDocument(item, versionName, datasetName, p).value;
      (!Truthy(v) ==> d.timestamp == RawTime(v)) &&
      (Truthy(v) ==> d.timestamp.ParsedTime? && p.timestamp(v.s) == Some(d.timestamp.micros))
  {
  }

  /** One `doc.save()`: the document and the id it is stored under. */
  datatype Save = Save(id: string, doc: SearchDocument)

  /** The save one record makes, or None when building its document raises. */
  function ItemSave(item: Json, versionName: string, datasetName: string, p: Transactions.Parsers, render: Json -> string): (r: Option<Save>)
    ensures r.None? <==> Broken(item, p)
    ensures r.Some? ==>
      item.JObj? && ToDocument(item, versionName, datasetName, p) == Some(r.value.doc) &&
      r.value.id == DocumentId(versionName, datasetName, ItemIdText(item.fields, render))
  {
    match ToDocument(item, versionName, datasetName, p)
    case None => None
    case Some(d) => Some(Save(DocumentId(versionName, datasetName, ItemIdText(item.fields, render)), d))
  }

  /**
   * The saves the records of one file make: record after record, until
   * the first record that raises, which ends the file (its error is
   * reported and the command goes on with the next file). What the saves
   * are, record by record, is stated by `ItemSavesStopAtFirstBroken`.
   */
  function ItemSaves(items: seq<Json>, versionName: string, datasetName: string, p: Transactions.Parsers, render: Json -> string): (r: seq<Save>)
    ensures |r| <= |items|
  {
    if items == [] then []
    else match ItemSave(items[0], versionName, datasetName, p, render)
      case None => []
      case Some(s) => [s] + ItemSaves(items[1..], versionName, datasetName, p, render)
  }

  /**
   * A file's saves are those of its records up to the first record that
   * raises: one per record, in order, each under the record's id; when
   * they stop early, the next record is one that raises.
   */
  lemma {:induction false} ItemSavesStopAtFirstBroken(items: seq<Json>, versionName: string, datasetName: string,
                                                     p: Transactions.Parsers, render: Json -> string)
    ensures var r := ItemSaves(items, versionName, datasetName, p, render);
      (forall i :: 0 <= i < |r| ==>
        items[i].JObj? && ToDocument(items[i], versionName, datasetName, p) == Some(r[i].doc) &&
        r[i].id == DocumentId(versionName, datasetName, ItemIdText(items[i].fields, render))) &&
      (|r| < |items| ==> Broken(items[|r|], p))
  {
    if items != [] && ItemSave(items[0], versionName, datasetName, p, render).Some? {
      ItemSavesStopAtFirstBroken(items[1..], versionName, datasetName, p, render);
      var r := ItemSaves(items, versionName, datasetName, p, render);
      var rest := ItemSaves(items[1..], versionName, datasetName, p, render);
      assert r[1..] == rest;
      forall i | 1 <= i < |r|
        ensures items[i].JObj? && ToDocument(items[i], versionName, datasetName, p) == Some(r[i].doc) &&
          r[i].id == DocumentId(versionName, datasetName, ItemIdText(items[i].fields, render))
      {
        assert r[i] == rest[i - 1] && items[i] == items[1..][i - 1];
      }
      if |r| < |items| {
        assert items[|r|] == items[1..][|rest|];
      }
    }
  }

  /** The saves one entry of a dataset folder makes; only a decodable ".json" file makes any. */
  function FileSaves(e: Entry, versionName: string, datasetName: string, p: Transactions.Parsers, render: Json -> string): seq<Save>
  {
    if e.File? && IsJsonName(e.name) && e.content.Loaded? then ItemSaves(FileItems(e.content.value), versionName, datasetName, p, render)
    else []
  }

  /** The saves of a dataset folder, file after file in listing order. */
  function DatasetSaves(listing: seq<Entry>, versionName: string, datasetName: string, p: Transactions.Parsers, render: Json -> string): seq<Save>
  {
    if listing == [] then []
    else FileSaves(listing[0], versionName, datasetName, p, render) + DatasetSaves(listing[1..], versionName, datasetName, p, render)
  }

  /** The saves one entry of a version directory makes: a sub-folder is a dataset, any other entry is passed over. */
  function EntrySaves(e: Entry, versionName: string, p: Transactions.Parsers, render: Json -> string): seq<Save>
  {
    if e.Folder? then DatasetSaves(e.children, versionName, e.name, p, render) else []
  }

  /** The saves of a version directory, entry after entry in listing order. */
  function VersionSaves(listing: seq<Entry>, versionName: string, p: Transactions.Parsers, render: Json -> string): seq<Save>
  {
    if listing == [] then []
    else EntrySaves(listing[0], versionName, p, render) + VersionSaves(listing[1..], versionName, p, render)
  }

  /**
   * The whole walk: the saves made, and whether the command got to the
   * end. A version whose path does not exist makes `os.listdir` raise,
   * which nothing catches: the command stops there.
   */
  function Walk(versions: seq<DataLakeVersion>, storage: Storage, p: Transactions.Parsers, render: Json -> string): (seq<Save>, bool)
  {
    if versions == [] then ([], true)
    else match ListDir(storage, versions[0].path)
      case None => ([], false)
      case Some(listing) =>
        var rest := Walk(versions[1..], storage, p, render);
        (VersionSaves(listing, versions[0].name, p, render) + rest.0, rest.1)
  }

  /** The index after a sequence of saves: a save under an existing id replaces that document. */
  function ApplySaves(docs: map<string, SearchDocument>, saves: seq<Save>): map<string, SearchDocument>
  {
    if saves == [] then docs
    else ApplySaves(docs, saves[..|saves| - 1])[saves[|saves| - 1].id := saves[|saves| - 1].doc]
  }

  lemma ItemLoopStep(items: seq<Json>, i: nat, done: seq<Save>, versionName: string, datasetName: string,
                     p: Transactions.Parsers, render: Json -> string)
    requires i < |items|
    requires ItemSaves(items, versionName, datasetName, p, render) == done + ItemSaves(items[i..], versionName, datasetName, p, render)
    ensures ItemSave(items[i], versionName, datasetName, p, render).None? ==> ItemSaves(items, versionName, datasetName, p, render) == done
    ensures ItemSave(items[i], versionName, datasetName, p, render).Some? ==>
      ItemSaves(items, versionName, datasetName, p, render) ==
        (done + [ItemSave(items[i], versionName, datasetName, p, render).value]) + ItemSaves(items[i + 1..], versionName, datasetName, p, render)
  {
    assert items[i..][0] == items[i] && items[i..][1..] == items[i + 1..];
    match ItemSave(items[i], versionName, datasetName, p, render)
    case None =>
      assert done + [] == done;
    case Some(here) =>
      var later := ItemSaves(items[i + 1..], versionName, datasetName, p, render);
      assert done + ([here] + later) == (done + [here]) + later;
  }

  lemma DatasetSavesStep(listing: seq<Entry>, i: nat, versionName: string, datasetName: string, p: Transactions.Parsers, render: Json -> string)
    requires i < |listing|
    ensures DatasetSaves(listing[i..], versionName, datasetName, p, render) ==
      FileSaves(listing[i], versionName, datasetName, p, render) + DatasetSaves(listing[i + 1..], versionName, datasetName, p, render)
  {
    assert listing[i..][0] == listing[i] && listing[i..][1..] == listing[i + 1..];
  }

  lemma DatasetLoopStep(listing: seq<Entry>, i: nat, done: seq<Save>, versionName: string, datasetName: string,
                        p: Transactions.Parsers, render: Json -> string)
    requires i < |listing|
    requires DatasetSaves(listing, versionName, datasetName, p, render) == done + DatasetSaves(listing[i..], versionName, datasetName, p, render)
    ensures DatasetSaves(listing, versionName, datasetName, p, render) ==
      (done + FileSaves(listing[i], versionName, datasetName, p, render)) + DatasetSaves(listing[i + 1..], versionName, datasetName, p, render)
  {
    DatasetSavesStep(listing, i, versionName, datasetName, p, render);
    var here := FileSaves(listing[i], versionName, datasetName, p, render);
    var later := DatasetSaves(listing[i + 1..], versionName, datasetName, p, render);
    assert done + (here + later) == (done + here) + later;
  }

  lemma VersionLoopStep(listing: seq<Entry>, i: nat, done: seq<Save>, versionName: string,
                        p: Transactions.Parsers, render: Json -> string)
    requires i < |listing|
    requires VersionSaves(listing, versionName, p, render) == done + VersionSaves(listing[i..], versionName, p, render)
    ensures VersionSaves(listing, versionName, p, render) ==
      (done + EntrySaves(listing[i], versionName, p, render)) + VersionSaves(listing[i + 1..], versionName, p, render)
  {
    assert listing[i..][0] == listing[i] && listing[i..][1..] == listing[i + 1..];
    var here := EntrySaves(listing[i], versionName, p, render);
    var later := VersionSaves(listing[i + 1..], versionName, p, render);
    assert done + (here + later) == (done + here) + later;
  }

  lemma WalkStep(versions: seq<DataLakeVersion>, i: nat, done: seq<Save>, storage: Storage,
                 p: Transactions.Parsers, render: Json -> string)
    requires i < |versions|
    requires Walk(versions, storage, p, render).0 == done + Walk(versions[i..], storage, p, render).0
    requires Walk(versions, storage, p, render).1 == Walk(versions[i..], storage, p, render).1
    ensures ListDir(storage, versions[i].path).None? ==>
      Walk(versions, storage, p, render).0 == done && !Walk(versions, storage, p, render).1
    ensures ListDir(storage, versions[i].path).Some? ==>
      Walk(versions, storage, p, render).0 ==
        (done + VersionSaves(ListDir(storage, versions[i].path).value, versions[i].name, p, render)) +
        Walk(versions[i + 1..], storage, p, render).0 &&
      Walk(versions, storage, p, render).1 == Walk(versions[i + 1..], storage, p, render).1
  {
    assert versions[i..][0] == versions[i] && versions[i..][1..] == versions[i + 1..];
    match ListDir(storage, versions[i].path)
    case None =>
      assert done + [] == done;
    case Some(listing) =>
      var here := VersionSaves(listing, versions[i].name, p, render);
      var later := Walk(versions[i + 1..], storage, p, render).0;
      assert done + (here + later) == (done + here) + later;
  }

  lemma ApplySavesSnoc(docs: map<string, SearchDocument>, saves: seq<Save>, s: Save)
    ensures ApplySaves(docs, saves + [s]) == ApplySaves(docs, saves)[s.id := s.doc]
  {
    assert (saves + [s])[..|saves|] == saves;
  }

  // ---------------------------------------------------------------------
  // What the command promises

  lemma {:induction false} ApplySavesAppend(docs: map<string, SearchDocument>, a: seq<Save>, b: seq<Save>)
    ensures ApplySaves(docs, a + b) == ApplySaves(ApplySaves(docs, a), b)
    decreases |b|
  {
    if b == [] {
      assert a + b == a;
    } else {
      var n := |b| - 1;
      assert (a + b)[..|a + b| - 1] == a + b[..n];
      assert (a + b)[|a + b| - 1] == b[n];
      ApplySavesAppend(docs, a, b[..n]);
    }
  }

  /** Saving overrides: the index after the saves is the old index overridden by what the saves alone build. */
  lemma {:induction false} ApplySavesOverrides(docs: map<string, SearchDocument>, saves: seq<Save>)
    ensures ApplySaves(docs, saves) == docs + ApplySaves(map[], saves)
  {
    if saves != [] {
      var n := |saves| - 1;
      ApplySavesOverrides(docs, saves[..n]);
    }
  }

  /** Running the same saves a second time leaves the index as the first run left it. */
  lemma ReindexingIsIdempotent(docs: map<string, SearchDocument>, saves: seq<Save>)
    ensures ApplySaves(ApplySaves(docs, saves), saves) == ApplySaves(docs, saves)
  {
    ApplySavesOverrides(docs, saves);
    ApplySavesOverrides(ApplySaves(docs, saves), saves);
    var built := ApplySaves(map[], saves);
    assert docs + built + built == docs + built;
  }

  /** What a file cannot read or does not load adds nothing; the files around it are indexed as if it were absent. */
  lemma {:induction false} DatasetSavesAppend(a: seq<Entry>, b: seq<Entry>, versionName: string, datasetName: string,
                                             p: Transactions.Parsers, render: Json -> string)
    ensures DatasetSaves(a + b, versionName, datasetName, p, render) ==
      DatasetSaves(a, versionName, datasetName, p, render) + DatasetSaves(b, versionName, datasetName, p, render)
  {
    if a != [] {
      assert (a + b)[1..] == a[1..] + b;
      DatasetSavesAppend(a[1..], b, versionName, datasetName, p, render);
    } else {
      assert a + b == b;
    }
  }

  lemma FailingFileIsSkipped(before: seq<Entry>, bad: Entry, after: seq<Entry>, versionName: string, datasetName: string,
                             p: Transactions.Parsers, render: Json -> string)
    requires bad.File? && bad.content.Unreadable?
    ensures DatasetSaves(before + [bad] + after, versionName, datasetName, p, render) ==
      DatasetSaves(before, versionName, datasetName, p, render) + DatasetSaves(after, versionName, datasetName, p, render)
  {
    DatasetSavesAppend(before + [bad], after, versionName, datasetName, p, render);
    DatasetSavesAppend(before, [bad], versionName, datasetName, p, render);
  }

  /** Every document saved for a dataset folder names that folder and its version. */
  lemma {:induction false} DatasetSavesAreTagged(listing: seq<Entry>, versionName: string, datasetName: string,
                                                p: Transactions.Parsers, render: Json -> string)
    ensures forall s :: s in DatasetSaves(listing, versionName, datasetName, p, render) ==>
      s.doc.datasetSource == datasetName && s.doc.version == versionName
  {
    if listing != [] {
      DatasetSavesAreTagged(listing[1..], versionName, datasetName, p, render);
      var e := listing[0];
      var here := FileSaves(e, versionName, datasetName, p, render);
      if e.File? && IsJsonName(e.name) && e.content.Loaded? {
        var items := FileItems(e.content.value);
        ItemSavesStopAtFirstBroken(items, versionName, datasetName, p, render);
        forall s | s in here ensures s.doc.datasetSource == datasetName && s.doc.version == versionName {
          var i :| 0 <= i < |here| && here[i] == s;
          assert ToDocument(items[i], versionName, datasetName, p) == Some(s.doc);
        }
      }
    }
  }

  /** Every document saved for a version comes from one of its sub-folders and names that version. */
  lemma {:induction false} VersionSavesAreTagged(listing: seq<Entry>, versionName: string, p: Transactions.Parsers, render: Json -> string)
    ensures forall s :: s in VersionSaves(listing, versionName, p, render) ==>
      s.doc.version == versionName && exists e :: e in listing && e.Folder? && e.name == s.doc.datasetSource
  {
    if listing != [] {
      VersionSavesAreTagged(listing[1..], versionName, p, render);
      if listing[0].Folder? {
        DatasetSavesAreTagged(listing[0].children, versionName, listing[0].name, p, render);
      }
      forall s | s in VersionSaves(listing, versionName, p, render)
        ensures s.doc.version == versionName && exists e :: e in listing && e.Folder? && e.name == s.doc.datasetSource
      {
        if s in VersionSaves(listing[1..], versionName, p, render) {
          var e :| e in listing[1..] && e.Folder? && e.name == s.doc.datasetSource;
          assert e in listing;
        } else {
          assert listing[0] in listing;
        }
      }
    }
  }

  /** The command reaches its end exactly when every version's path exists. */
  lemma {:induction false} WalkCompletes(versions: seq<DataLakeVersion>, storage: Storage, p: Transactions.Parsers, render: Json -> string)
    ensures Walk(versions, storage, p, render).1 <==> forall i :: 0 <= i < |versions| ==> versions[i].path in storage
  {
    if versions != [] {
      WalkCompletes(versions[1..], storage, p, render);
      if versions[0].path in storage {
        forall i | 0 <= i < |versions| && (forall j :: 0 <= j < |versions| - 1 ==> versions[1..][j].path in storage)
          ensures versions[i].path in storage
        {
          if i > 0 { assert versions[i] == versions[1..][i - 1]; }
        }
      }
    }
  }

  /** The search index the command writes to. */
  class SearchIndex {
    var docs: map<string, SearchDocument>

    constructor (initial: map<string, SearchDocument>)
      ensures docs == initial
    {
      docs := initial;
    }

    /** `doc.save()`: stores the document under its id, replacing any document already there. */
    method SaveDocument(id: string, doc: SearchDocument)
      modifies this
      ensures docs == old(docs)[id := doc]
    {
      docs := docs[id := doc];
    }

    /** The loop over the records of one decoded file; the first record that raises ends it. */
    method IndexItems(items: seq<Json>, versionName: string, datasetName: string, p: Transactions.Parsers, render: Json -> string)
      modifies this
      ensures docs == ApplySaves(old(docs), ItemSaves(items, versionName, datasetName, p, render))
    {
      ghost var done: seq<Save> := [];
      ghost var all := ItemSaves(items, versionName, datasetName, p, render);
      var i := 0;
      while i < |items|
        invariant 0 <= i <= |items|
        invariant all == done + ItemSaves(items[i..], versionName, datasetName, p, render)
        invariant docs == ApplySaves(old(docs), done)
      {
        ItemLoopStep(items, i, done, versionName, datasetName, p, render);
        var save := ItemSave(items[i], versionName, datasetName, p, render);
        if save.None? {
          return;
        }
        SaveDocument(save.value.id, save.value.doc);
        ApplySavesSnoc(old(docs), done, save.value);
        done := done + [save.value];
        i := i + 1;
      }
      assert items[i..] == [] && done + [] == done;
    }

    /**
     * One entry of a dataset folder: only a ".json" file is opened; a file
     * that cannot be opened or decoded is reported and indexes nothing.
     */
    method IndexFile(e: Entry, versionName: string, datasetName: string, p: Transactions.Parsers, render: Json -> string)
      modifies this
      ensures docs == ApplySaves(old(docs), FileSaves(e, versionName, datasetName, p, render))
    {
      if e.File? && IsJsonName(e.name) && e.content.Loaded? {
        IndexItems(FileItems(e.content.value), versionName, datasetName, p, render);
      }
    }

    /** The loop over the entries of a dataset folder. */
    method IndexDataset(listing: seq<Entry>, versionName: string, datasetName: string, p: Transactions.Parsers, render: Json -> string)
      modifies this
      ensures docs == ApplySaves(old(docs), DatasetSaves(listing, versionName, datasetName, p, render))
    {
      ghost var done: seq<Save> := [];
      var i := 0;
      while i < |listing|
        invariant 0 <= i <= |listing|
        invariant DatasetSaves(listing, versionName, datasetName, p, render) == done + DatasetSaves(listing[i..], versionName, datasetName, p, render)
        invariant docs == ApplySaves(old(docs), done)
      {
        DatasetLoopStep(listing, i, done, versionName, datasetName, p, render);
        ghost var here := FileSaves(listing[i], versionName, datasetName, p, render);
        IndexFile(listing[i], versionName, datasetName, p, render);
        ApplySavesAppend(old(docs), done, here);
        done := done + here;
        i := i + 1;
      }
      assert listing[i..] == [] && done + [] == done;
    }

    /** One entry of a version directory: a sub-folder is indexed as a dataset, anything else is skipped. */
    method IndexEntry(e: Entry, versionName: string, p: Transactions.Parsers, render: Json -> string)
      modifies this
      ensures docs == ApplySaves(old(docs), EntrySaves(e, versionName, p, render))
    {
      if e.Folder? {
        IndexDataset(e.children, versionName, e.name, p, render);
      }
    }

    /** The loop over the entries of a version directory. */
    method IndexVersion(listing: seq<Entry>, versionName: string, p: Transactions.Parsers, render: Json -> string)
      modifies this
      ensures docs == ApplySaves(old(docs), VersionSaves(listing, versionName, p, render))
    {
      ghost var done: seq<Save> := [];
      var i := 0;
      while i < |listing|
        invariant 0 <= i <= |listing|
        invariant VersionSaves(listing, versionName, p, render) == done + VersionSaves(listing[i..], versionName, p, render)
        invariant docs == ApplySaves(old(docs), done)
      {
        VersionLoopStep(listing, i, done, versionName, p, render);
        ghost var here := EntrySaves(listing[i], versionName, p, render);
        IndexEntry(listing[i], versionName, p, render);
        ApplySavesAppend(old(docs), done, here);
        done := done + here;
        i := i + 1;
      }
      assert listing[i..] == [] && done + [] == done;
    }

    /**
     * `Command.handle`: indexes every version in turn; `completed` is false
     * when a version's path is missing, which stops the command with the
     * documents saved so far kept.
     */
    method Handle(versions: seq<DataLakeVersion>, storage: Storage, p: Transactions.Parsers, render: Json -> string)
      returns (completed: bool)
      modifies this
      ensures completed == Walk(versions, storage, p, render).1
      ensures docs == ApplySaves(old(docs), Walk(versions, storage, p, render).0)
    {
      ghost var done: seq<Save> := [];
      var i := 0;
      while i < |versions|
        invariant 0 <= i <= |versions|
        invariant Walk(versions, storage, p, render).0 == done + Walk(versions[i..], storage, p, render).0
        invariant Walk(versions, storage, p, render).1 == Walk(versions[i..], storage, p, render).1
        invariant docs == ApplySaves(old(docs), done)
      {
        WalkStep(versions, i, done, storage, p, render);
        var listing := ListDir(storage, versions[i].path);
        if listing.None? {
          return false;
        }
        ghost var here := VersionSaves(listing.value, versions[i].name, p, render);
        IndexVersion(listing.value, versions[i].name, p, render);
        ApplySavesAppend(old(docs), done, here);
        done := done + here;
        i := i + 1;
      }
      assert versions[i..] == [] && done + [] == done;
      completed := true;
    }
  }
}
