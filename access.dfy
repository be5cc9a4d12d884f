/**
 * Access decisions: the dataset-level check used by most endpoints and the
 * four-step, audited decision of the version-scoped dataset read.
 */
module Access {
  import opened Values
  import opened Models
  import Loading

  /** True when row `r` grants something to `user` on `datasetName`. */
  predicate Grants(r: AccessRight, user: string, datasetName: string)
  {
    r.user == user && r.datasetName == datasetName
  }

  /**
   * `check_dataset_access`: some access-right row exists for the pair. The
   * row's version fields play no part.
   */
  function CheckDatasetAccess(rights: seq<AccessRight>, user: string, datasetName: string): (ok: bool)
    ensures ok <==> exists i :: 0 <= i < |rights| && Grants(rights[i], user, datasetName)
  {
    if rights == [] then false
    else Grants(rights[0], user, datasetName) || CheckDatasetAccess(rights[1..], user, datasetName)
  }

  /**
   * Two tables that hold the same (user, dataset) pairs row for row give
   * the same dataset-level answer, whatever their version fields say.
   */
  lemma {:induction false} AccessIgnoresVersionFields(rights: seq<AccessRight>, other: seq<AccessRight>, user: string, datasetName: string)
    requires |rights| == |other|
    requires forall i :: 0 <= i < |rights| ==> rights[i].user == other[i].user && rights[i].datasetName == other[i].datasetName
    ensures CheckDatasetAccess(rights, user, datasetName) == CheckDatasetAccess(other, user, datasetName)
  {
    if rights != [] {
      AccessIgnoresVersionFields(rights[1..], other[1..], user, datasetName);
    }
  }

  /** `AccessRight.objects.filter(user=..., dataset_name=...).first()` over rows in key order. */
  function FirstRight(rights: seq<AccessRight>, user: string, datasetName: string): (r: Option<AccessRight>)
    ensures r.Some? <==> CheckDatasetAccess(rights, user, datasetName)
    ensures r.Some? ==> r.value in rights && Grants(r.value, user, datasetName)
  {
    if rights == [] then None
    else if Grants(rights[0], user, datasetName) then Some(rights[0])
    else FirstRight(rights[1..], user, datasetName)
  }

  /** With (user, dataset) unique, the first matching row is the only one. */
  lemma {:induction false} FirstRightIsTheRight(rights: seq<AccessRight>, user: string, datasetName: string, r: AccessRight)
    requires UniquePairs(rights)
    requires r in rights && Grants(r, user, datasetName)
    ensures FirstRight(rights, user, datasetName) == Some(r)
  {
    if rights[0] != r {
      assert r in rights[1..];
      if Grants(rights[0], user, datasetName) {
        assert false;
      }
      FirstRightIsTheRight(rights[1..], user, datasetName, r);
    }
  }

  /** `values_list('dataset_name')` of the user's rows, in row order. */
  function UserDatasets(rights: seq<AccessRight>, user: string): (ds: seq<string>)
    ensures |ds| <= |rights|
    ensures ds == [] <==> forall i :: 0 <= i < |rights| ==> rights[i].user != user
    ensures forall d :: d in ds <==> CheckDatasetAccess(rights, user, d)
  {
    if rights == [] then []
    else if rights[0].user == user then [rights[0].datasetName] + UserDatasets(rights[1..], user)
    else UserDatasets(rights[1..], user)
  }

  // ---------------------------------------------------------------------
  // The version-scoped read

  /** The catalog rows carrying a given name. */
  function VersionsNamed(catalog: seq<DataLakeVersion>, name: string): (vs: seq<DataLakeVersion>)
    ensures forall v :: v in vs <==> v in catalog && v.name == name
  {
    if catalog == [] then []
    else if catalog[0].name == name then [catalog[0]] + VersionsNamed(catalog[1..], name)
    else VersionsNamed(catalog[1..], name)
  }

  datatype VersionOutcome =
    | VersionNotFound
    | AmbiguousVersion
    | AccessDenied
    | VersionNotPermitted
    | DatasetNotFound
    | VersionData(versionName: string, datasetName: string, data: seq<Json>)
  {
    /** The HTTP status the endpoint answers with. */
    function Status(): int
    {
      match this
      case VersionNotFound => 404
      case AmbiguousVersion => 500
      case AccessDenied => 403
      case VersionNotPermitted => 403
      case DatasetNotFound => 404
      case VersionData(_, _, _) => 200
    }
  }

  /** An outcome and the access-log rows written while reaching it. */
  datatype Decision = Decision(outcome: VersionOutcome, logged: seq<DetailedAccessLog>)

  /** May access right `r` read version `v`? */
  predicate VersionPermitted(r: AccessRight, v: DataLakeVersion)
  {
    r.canAccessAllVersions || v.id in r.allowedVersions
  }

  /**
   * `get_dataset_version` as a decision: the version lookup, then the
   * access-right lookup, then the version permission, then the folder
   * check; each stop writes one log row, and so does the successful read.
   * A name carried by several versions makes the lookup raise before
   * anything is logged.
   */
  function VersionDecision(catalog: seq<DataLakeVersion>, rights: seq<AccessRight>, storage: Storage,
                           user: string, datasetName: string, versionName: string): (d: Decision)
    ensures d.outcome.AmbiguousVersion? <==> |VersionsNamed(catalog, versionName)| > 1
    ensures d.outcome.AmbiguousVersion? ==> d.logged == []
    ensures !d.outcome.AmbiguousVersion? ==> |d.logged| == 1
    ensures !d.outcome.AmbiguousVersion? ==>
      d.logged[0].user == user && d.logged[0].datasetName == datasetName &&
      (d.logged[0].success <==> d.outcome.VersionData?) &&
      (d.logged[0].success <==> d.outcome.Status() == 200)
    ensures d.outcome.VersionNotFound? <==> VersionsNamed(catalog, versionName) == []
    ensures d.outcome.VersionNotFound? ==> d.logged[0].version.None? && d.logged[0].accessType == VersionCheck
    ensures |VersionsNamed(catalog, versionName)| == 1 ==>
      d.logged[0].version == Some(VersionsNamed(catalog, versionName)[0]) && d.logged[0].accessType == Read
    ensures d.outcome.AccessDenied? <==> |VersionsNamed(catalog, versionName)| == 1 && !CheckDatasetAccess(rights, user, datasetName)
    ensures d.outcome.VersionNotPermitted? <==>
      |VersionsNamed(catalog, versionName)| == 1 && CheckDatasetAccess(rights, user, datasetName) &&
      !VersionPermitted(FirstRight(rights, user, datasetName).value, VersionsNamed(catalog, versionName)[0])
    ensures d.outcome.DatasetNotFound? ==>
      |VersionsNamed(catalog, versionName)| == 1 &&
      Loading.DatasetRecords(ListDir(storage, VersionsNamed(catalog, versionName)[0].path), datasetName).None?
    ensures d.outcome.VersionData? ==>
      d.outcome.versionName == versionName && d.outcome.datasetName == datasetName &&
      Some(d.outcome.data) == Loading.DatasetRecords(ListDir(storage, VersionsNamed(catalog, versionName)[0].path), datasetName)
  {
    var named := VersionsNamed(catalog, versionName);
    if named == [] then
      Decision(VersionNotFound,
               [NewDetailedAccessLog(user, datasetName, None, VersionCheck, false, "Version " + versionName + " not found")])
    else if |named| > 1 then
      Decision(AmbiguousVersion, [])
    else
      var version := named[0];
      match FirstRight(rights, user, datasetName)
      case None =>
        Decision(AccessDenied,
                 [NewDetailedAccessLog(user, datasetName, Some(version), Read, false, "Access denied")])
      case Some(right) =>
        if !VersionPermitted(right, version) then
          Decision(VersionNotPermitted,
                   [NewDetailedAccessLog(user, datasetName, Some(version), Read, false, "No access to version " + versionName)])
        else match Loading.DatasetRecords(ListDir(storage, version.path), datasetName)
          case None =>
            Decision(DatasetNotFound,
                     [NewDetailedAccessLog(user, datasetName, Some(version), Read, false, "Dataset not found")])
          case Some(data) =>
            Decision(VersionData(versionName, datasetName, data),
                     [NewDetailedAccessLog(user, datasetName, Some(version), Read)])
  }

  /**
   * With a uniquely named version and unique access-right pairs, a user
   * reads a version exactly when they hold the dataset's access right, the
   * right covers the version, and the folder exists under the version's
   * path.
   */
  lemma VersionReadGranted(catalog: seq<DataLakeVersion>, rights: seq<AccessRight>, storage: Storage,
                           user: string, datasetName: string, v: DataLakeVersion, r: AccessRight)
    requires UniquePairs(rights)
    requires VersionsNamed(catalog, v.name) == [v]
    requires r in rights && Grants(r, user, datasetName)
    ensures VersionDecision(catalog, rights, storage, user, datasetName, v.name).outcome.VersionData? <==>
      VersionPermitted(r, v) && Loading.DatasetRecords(ListDir(storage, v.path), datasetName).Some?
  {
    FirstRightIsTheRight(rights, user, datasetName, r);
  }

  /**
   * A right created with the model's defaults opens the dataset, yet covers
   * no version of it: every version-scoped read through it is refused.
   */
  lemma FreshRightReadsNoVersion(catalog: seq<DataLakeVersion>, rights: seq<AccessRight>, storage: Storage,
                                 user: string, datasetName: string, v: DataLakeVersion)
    requires UniquePairs(rights)
    requires CreateAccessRight(rights, NewAccessRight(user, datasetName)).Inserted?
    requires VersionsNamed(catalog, v.name) == [v]
    ensures CheckDatasetAccess(CreateAccessRight(rights, NewAccessRight(user, datasetName)).rows, user, datasetName)
    ensures !VersionDecision(catalog, CreateAccessRight(rights, NewAccessRight(user, datasetName)).rows,
                             storage, user, datasetName, v.name).outcome.VersionData?
  {
    var r := NewAccessRight(user, datasetName);
    var rows := CreateAccessRight(rights, r).rows;
    assert rows[|rights|] == r;
    VersionReadGranted(catalog, rows, storage, user, datasetName, v, r);
  }

  /** The store of detailed access-log rows; creating a row appends it. */
  class AuditTrail {
    var entries: seq<DetailedAccessLog>

    constructor ()
      ensures entries == []
    {
      entries := [];
    }

    method Create(e: DetailedAccessLog)
      modifies this
      ensures entries == old(entries) + [e]
    {
      entries := entries + [e];
    }
  }

  /**
   * The version-scoped read endpoint: answers as `VersionDecision` says and
   * appends to the audit trail exactly the rows the decision logs.
   */
  method GetDatasetVersion(trail: AuditTrail, catalog: seq<DataLakeVersion>, rights: seq<AccessRight>, storage: Storage,
                           user: string, datasetName: string, versionName: string) returns (out: VersionOutcome)
    modifies trail
    ensures out == VersionDecision(catalog, rights, storage, user, datasetName, versionName).outcome
    ensures trail.entries == old(trail.entries) + VersionDecision(catalog, rights, storage, user, datasetName, versionName).logged
  {
    var named := VersionsNamed(catalog, versionName);
    if named == [] {
      trail.Create(NewDetailedAccessLog(user, datasetName, None, VersionCheck, false, "Version " + versionName + " not found"));
      return VersionNotFound;
    }
    if |named| > 1 {
      return AmbiguousVersion;
    }
    var version := named[0];
    var right := FirstRight(rights, user, datasetName);
    if right.None? {
      trail.Create(NewDetailedAccessLog(user, datasetName, Some(version), Read, false, "Access denied"));
      return AccessDenied;
    }
    if !(right.value.canAccessAllVersions || version.id in right.value.allowedVersions) {
      trail.Create(NewDetailedAccessLog(user, datasetName, Some(version), Read, false, "No access to version " + versionName));
      return VersionNotPermitted;
    }
    var base := ListDir(storage, version.path);
    if SubFolder(base, datasetName).None? {
      trail.Create(NewDetailedAccessLog(user, datasetName, Some(version), Read, false, "Dataset not found"));
      return DatasetNotFound;
    }
    var data := Loading.LoadDataForDataset(base, datasetName);
    trail.Create(NewDetailedAccessLog(user, datasetName, Some(version), Read));
    return VersionData(versionName, datasetName, data.value);
  }
}
