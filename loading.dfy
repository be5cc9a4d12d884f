/**
 * Loading a dataset folder of the lake into one flat list of records, and
 * the union of several datasets that the listing endpoint pages over.
 */
module Loading {
  import opened Values

  /**
   * What one entry of a dataset folder contributes: the records of a
   * decodable file whose name ends in ".json"; nothing for any other name,
   * for a file that failed to open or decode, or for a sub-folder (opening
   * it raises, which is swallowed like a decoding error).
   */
  function Contribution(e: Entry): (r: seq<Json>)
    ensures !IsJsonName(e.name) || e.Folder? || (e.File? && e.content.Unreadable?) ==> r == []
    ensures e.File? && IsJsonName(e.name) && e.content.Loaded? ==> r == FileItems(e.content.value)
  {
    if e.File? && IsJsonName(e.name) && e.content.Loaded? then FileItems(e.content.value) else []
  }

  /** The records of a whole folder listing, entry after entry, in listing order. */
  function Flatten(listing: seq<Entry>): seq<Json>
  {
    if listing == [] then []
    else Flatten(listing[..|listing| - 1]) + Contribution(listing[|listing| - 1])
  }

  /** One more entry appends its contribution. */
  lemma FlattenSnoc(listing: seq<Entry>, e: Entry)
    ensures Flatten(listing + [e]) == Flatten(listing) + Contribution(e)
  {
    assert (listing + [e])[..|listing|] == listing;
  }

  /** Flattening distributes over concatenating two listings. */
  lemma {:induction false} FlattenAppend(a: seq<Entry>, b: seq<Entry>)
    ensures Flatten(a + b) == Flatten(a) + Flatten(b)
    decreases |b|
  {
    if b == [] {
      assert a + b == a;
    } else {
      var b', e := b[..|b| - 1], b[|b| - 1];
      assert a + b == (a + b') + [e];
      assert b == b' + [e];
      FlattenSnoc(a + b', e);
      FlattenSnoc(b', e);
      FlattenAppend(a, b');
      assert (Flatten(a) + Flatten(b')) + Contribution(e) == Flatten(a) + (Flatten(b') + Contribution(e));
    }
  }

  /**
   * A file that fails to decode, wherever it stands in the listing, removes
   * its own records only: the files before and after it load as if it were
   * not there.
   */
  lemma FailedFileIsSkipped(before: seq<Entry>, name: string, after: seq<Entry>)
    ensures Flatten(before + [File(name, Unreadable)] + after) == Flatten(before + after)
  {
    var bad := File(name, Unreadable);
    FlattenAppend(before + [bad], after);
    FlattenSnoc(before, bad);
    assert Flatten(before) + Contribution(bad) == Flatten(before);
    FlattenAppend(before, after);
  }

  /** Every record of a listing comes from one of its entries. */
  lemma {:induction false} FlattenSource(listing: seq<Entry>, x: Json) returns (i: nat)
    requires x in Flatten(listing)
    ensures i < |listing| && x in Contribution(listing[i])
  {
    var n := |listing| - 1;
    if x in Contribution(listing[n]) {
      i := n;
    } else {
      i := FlattenSource(listing[..n], x);
      assert listing[..n][i] == listing[i];
    }
  }

  /** Every record an entry contributes is in the listing's records. */
  lemma {:induction false} FlattenContains(listing: seq<Entry>, i: nat, x: Json)
    requires i < |listing| && x in Contribution(listing[i])
    ensures x in Flatten(listing)
  {
    var n := |listing| - 1;
    assert Flatten(listing) == Flatten(listing[..n]) + Contribution(listing[n]);
    if i < n {
      assert listing[..n][i] == listing[i];
      FlattenContains(listing[..n], i, x);
    }
  }

  /** A record is loaded exactly when some entry of the listing contributes it. */
  lemma FlattenMembership(listing: seq<Entry>, x: Json)
    ensures x in Flatten(listing) <==> exists i :: 0 <= i < |listing| && x in Contribution(listing[i])
  {
    if x in Flatten(listing) {
      var i := FlattenSource(listing, x);
    }
    if exists i :: 0 <= i < |listing| && x in Contribution(listing[i]) {
      var i :| 0 <= i < |listing| && x in Contribution(listing[i]);
      FlattenContains(listing, i, x);
    }
  }

  /** `load_data_for_dataset`, as a pure value: None when the folder is missing. */
  function DatasetRecords(base: Option<seq<Entry>>, datasetName: string): Option<seq<Json>>
  {
    match SubFolder(base, datasetName)
    case None => None
    case Some(children) => Some(Flatten(children))
  }

  /**
   * Loads dataset folder `datasetName` of the directory listed by `base`:
   * None when that folder is missing or is not a directory, otherwise the
   * records of its ".json" files in listing order, a list file spliced in
   * and an object file appended, a failing file skipped.
   */
  method LoadDataForDataset(base: Option<seq<Entry>>, datasetName: string) returns (data: Option<seq<Json>>)
    ensures data.None? <==> SubFolder(base, datasetName).None?
    ensures data.Some? ==> data.value == Flatten(SubFolder(base, datasetName).value)
    ensures data == DatasetRecords(base, datasetName)
  {
    var folder := SubFolder(base, datasetName);
    if folder.None? {
      return None;
    }
    var listing := folder.value;
    var acc: seq<Json> := [];
    var i := 0;
    while i < |listing|
      invariant 0 <= i <= |listing|
      invariant acc == Flatten(listing[..i])
    {
      var e := listing[i];
      assert listing[..i + 1][..i] == listing[..i];
      if e.File? && IsJsonName(e.name) && e.content.Loaded? {
        var content := e.content.value;
        if content.JArr? {
          acc := acc + content.items;
        } else {
          acc := acc + [content];
        }
      }
      i := i + 1;
    }
    assert listing[..|listing|] == listing;
    data := Some(acc);
  }

  /** The records of a dataset as the union sees them: a missing folder adds nothing. */
  function RecordsOrEmpty(base: Option<seq<Entry>>, datasetName: string): seq<Json>
  {
    match DatasetRecords(base, datasetName)
    case None => []
    case Some(rs) => rs
  }

  /** What each of `datasets` loads, in order. */
  function DatasetLoads(base: Option<seq<Entry>>, datasets: seq<string>): (parts: seq<seq<Json>>)
    ensures |parts| == |datasets|
  {
    if datasets == [] then []
    else DatasetLoads(base, datasets[..|datasets| - 1]) + [RecordsOrEmpty(base, datasets[|datasets| - 1])]
  }

  /** Part `i` is what dataset `i` loads. */
  lemma {:induction false} DatasetLoadsAt(base: Option<seq<Entry>>, datasets: seq<string>, i: nat)
    requires i < |datasets|
    ensures DatasetLoads(base, datasets)[i] == RecordsOrEmpty(base, datasets[i])
  {
    var n := |datasets| - 1;
    if i < n {
      assert datasets[..n][i] == datasets[i];
      DatasetLoadsAt(base, datasets[..n], i);
    }
  }

  /** Record lists laid end to end. */
  function Concat(parts: seq<seq<Json>>): seq<Json>
  {
    if parts == [] then [] else Concat(parts[..|parts| - 1]) + parts[|parts| - 1]
  }

  /** The union, dataset after dataset, of what each of `datasets` loads. */
  function Union(base: Option<seq<Entry>>, datasets: seq<string>): seq<Json>
  {
    Concat(DatasetLoads(base, datasets))
  }

  /** Every record of a concatenation comes from one of its parts. */
  lemma {:induction false} ConcatSource(parts: seq<seq<Json>>, x: Json) returns (i: nat)
    requires x in Concat(parts)
    ensures i < |parts| && x in parts[i]
  {
    var n := |parts| - 1;
    if x in parts[n] {
      i := n;
    } else {
      i := ConcatSource(parts[..n], x);
      assert parts[..n][i] == parts[i];
    }
  }

  /** Every record of a part is in the concatenation. */
  lemma {:induction false} ConcatContains(parts: seq<seq<Json>>, i: nat, x: Json)
    requires i < |parts| && x in parts[i]
    ensures x in Concat(parts)
  {
    var n := |parts| - 1;
    assert Concat(parts) == Concat(parts[..n]) + parts[n];
    if i < n {
      assert parts[..n][i] == parts[i];
      ConcatContains(parts[..n], i, x);
    }
  }

  /** Loading one more dataset appends what it loads. */
  lemma UnionStep(base: Option<seq<Entry>>, datasets: seq<string>, i: nat)
    requires i < |datasets|
    ensures Union(base, datasets[..i + 1]) == Union(base, datasets[..i]) + RecordsOrEmpty(base, datasets[i])
  {
    assert datasets[..i + 1][..i] == datasets[..i];
    var parts := DatasetLoads(base, datasets[..i + 1]);
    assert parts[..i] == DatasetLoads(base, datasets[..i]);
  }

  /** The union contains a record exactly when one of the datasets loads it. */
  lemma UnionMembership(base: Option<seq<Entry>>, datasets: seq<string>, x: Json)
    ensures x in Union(base, datasets) <==> exists i :: 0 <= i < |datasets| && x in RecordsOrEmpty(base, datasets[i])
  {
    var parts := DatasetLoads(base, datasets);
    if x in Concat(parts) {
      var i := ConcatSource(parts, x);
      DatasetLoadsAt(base, datasets, i);
    }
    if exists i :: 0 <= i < |datasets| && x in RecordsOrEmpty(base, datasets[i]) {
      var i :| 0 <= i < |datasets| && x in RecordsOrEmpty(base, datasets[i]);
      DatasetLoadsAt(base, datasets, i);
      ConcatContains(parts, i, x);
    }
  }

  /**
   * The loop of the listing endpoint: loads every dataset in turn and
   * extends the result with whatever it loads (a missing or empty dataset
   * adds nothing).
   */
  method LoadAuthorizedData(base: Option<seq<Entry>>, datasets: seq<string>) returns (authorized: seq<Json>)
    ensures authorized == Union(base, datasets)
  {
    authorized := [];
    var i := 0;
    while i < |datasets|
      invariant 0 <= i <= |datasets|
      invariant authorized == Union(base, datasets[..i])
    {
      UnionStep(base, datasets, i);
      var data := LoadDataForDataset(base, datasets[i]);
      if data.Some? && data.value != [] {
        authorized := authorized + data.value;
      } else {
        assert authorized + [] == authorized;
      }
      i := i + 1;
    }
    assert datasets[..|datasets|] == datasets;
  }
}
