/**
 * The persistent records of the data-lake service and their text forms:
 * lake versions, per-user access rights, detailed access-log entries and
 * materialised transactions.
 */
module Models {
  import opened Values

  /** A registered version of the data lake; `id` is its primary key. */
  datatype DataLakeVersion = DataLakeVersion(id: nat, name: string, path: string, isActive: bool)

  /** The grant tying a user to a dataset and, optionally, to a set of version ids. */
  datatype AccessRight = AccessRight(
    user: string,
    datasetName: string,
    allowedVersions: set<nat>,
    canAccessAllVersions: bool)

  datatype AccessKind = Read | List | VersionCheck

  /** One row of the detailed access log; `version` is a nullable foreign key. */
  datatype DetailedAccessLog = DetailedAccessLog(
    user: string,
    datasetName: string,
    version: Option<DataLakeVersion>,
    accessType: AccessKind,
    success: bool,
    errorMessage: string)

  /** A materialised transaction row; the three nullable text columns are options. */
  datatype Transaction = Transaction(
    paymentMethod: string,
    country: string,
    productCategory: string,
    status: string,
    amount: real,
    customerRating: Option<int>,
    timestamp: int,
    userId: Option<string>,
    userName: Option<string>,
    productId: Option<string>)

  // ---------------------------------------------------------------------
  // Field defaults

  /** A freshly created access right: no version listed, not all versions. */
  function NewAccessRight(user: string, datasetName: string): (r: AccessRight)
    ensures r.user == user && r.datasetName == datasetName
    ensures !r.canAccessAllVersions && r.allowedVersions == {}
  {
    AccessRight(user, datasetName, {}, false)
  }

  /** A log row created without an explicit `success` or message counts as a success. */
  function NewDetailedAccessLog(user: string, datasetName: string, version: Option<DataLakeVersion>,
                                accessType: AccessKind, success: bool := true, errorMessage: string := ""): (e: DetailedAccessLog)
    ensures e.user == user && e.datasetName == datasetName && e.version == version && e.accessType == accessType
    ensures e.success == success && e.errorMessage == errorMessage
  {
    DetailedAccessLog(user, datasetName, version, accessType, success, errorMessage)
  }

  /**
   * Deleting a version sets the version of every log row that referred to
   * it to null and leaves every other field and row as it was.
   */
  function OnVersionDeleted(logs: seq<DetailedAccessLog>, versionId: nat): (r: seq<DetailedAccessLog>)
    ensures |r| == |logs|
    ensures forall i :: 0 <= i < |r| ==>
      r[i] == logs[i].(version := if logs[i].version.Some? && logs[i].version.value.id == versionId then None else logs[i].version)
    ensures forall i :: 0 <= i < |r| ==> r[i].version.Some? ==> r[i].version.value.id != versionId
  {
    if logs == [] then []
    else
      var e := logs[0];
      var e' := if e.version.Some? && e.version.value.id == versionId then e.(version := None) else e;
      var rest := OnVersionDeleted(logs[1..], versionId);
      var r := [e'] + rest;
      assert forall i :: 1 <= i < |r| ==> r[i] == rest[i - 1] && logs[i] == logs[1..][i - 1];
      r
  }

  // ---------------------------------------------------------------------
  // Uniqueness of (user, dataset_name)

  /** At most one access right per (user, dataset name) pair. */
  predicate UniquePairs(rights: seq<AccessRight>)
  {
    forall i, j :: 0 <= i < j < |rights| ==>
      rights[i].user != rights[j].user || rights[i].datasetName != rights[j].datasetName
  }

  datatype Insertion = Inserted(rows: seq<AccessRight>) | IntegrityError

  /** Inserting an access right; a second row for the same pair is refused. */
  function CreateAccessRight(rights: seq<AccessRight>, r: AccessRight): (out: Insertion)
    ensures out.IntegrityError? <==>
      exists i :: 0 <= i < |rights| && rights[i].user == r.user && rights[i].datasetName == r.datasetName
    ensures out.Inserted? ==> out.rows == rights + [r]
    ensures UniquePairs(rights) && out.Inserted? ==> UniquePairs(out.rows)
  {
    if exists i :: 0 <= i < |rights| && rights[i].user == r.user && rights[i].datasetName == r.datasetName
    then IntegrityError
    else Inserted(rights + [r])
  }

  // ---------------------------------------------------------------------
  // Text forms

  /** The position of the first `c` in `s`. */
  function FirstIndex(s: string, c: char): (r: Option<nat>)
    ensures r.Some? ==> r.value < |s| && s[r.value] == c && c !in s[..r.value]
    ensures r.None? ==> c !in s
  {
    if s == [] then None
    else if s[0] == c then Some(0)
    else match FirstIndex(s[1..], c)
      case None => None
      case Some(k) => assert s[..k + 1] == [s[0]] + s[1..][..k]; Some(k + 1)
  }

  lemma {:induction false} FirstIndexAfter(a: string, b: string, c: char)
    requires c !in a
    ensures FirstIndex(a + b, c) == (match FirstIndex(b, c) case None => None case Some(k) => Some(|a| + k))
  {
    if a != [] {
      assert (a + b)[1..] == a[1..] + b;
      FirstIndexAfter(a[1..], b, c);
    } else {
      assert a + b == b;
    }
  }

  /** `DataLakeVersion.__str__`: the name followed by the path in parentheses. */
  function VersionLabel(v: DataLakeVersion): string
  {
    v.name + " (" + v.path + ")"
  }

  /** Reads a version label back: the name is what precedes the first " (". */
  function ParseVersionLabel(s: string): Option<(string, string)>
  {
    match FirstIndex(s, '(')
    case None => None
    case Some(i) =>
      if 1 <= i && s[i - 1] == ' ' && i + 2 <= |s| && s[|s| - 1] == ')'
      then Some((s[..i - 1], s[i + 1..|s| - 1]))
      else None
  }

  /** A version whose name holds no '(' is recovered, name and path, from its label. */
  lemma VersionLabelRoundTrip(v: DataLakeVersion)
    requires '(' !in v.name
    ensures ParseVersionLabel(VersionLabel(v)) == Some((v.name, v.path))
  {
    var closing := v.path + ")";
    assert VersionLabel(v) == v.name + " (" + closing;
    CutParen(v.name, closing);
    assert closing[..|closing| - 1] == v.path;
  }

  /** `AccessRight.__str__`: user name, a spaced dash, dataset name. */
  function AccessRightLabel(r: AccessRight): string
  {
    r.user + " - " + r.datasetName
  }

  /** Reads an access-right label back at its first '-'. */
  function ParseAccessRightLabel(s: string): Option<(string, string)>
  {
    match FirstIndex(s, '-')
    case None => None
    case Some(i) =>
      if 1 <= i && s[i - 1] == ' ' && i + 2 <= |s| && s[i + 1] == ' '
      then Some((s[..i - 1], s[i + 2..]))
      else None
  }

  /** A user name without '-' and the dataset name are recovered from the label. */
  lemma AccessRightLabelRoundTrip(r: AccessRight)
    requires '-' !in r.user
    ensures ParseAccessRightLabel(AccessRightLabel(r)) == Some((r.user, r.datasetName))
  {
    CutDash(r.user, r.datasetName);
  }

  /** How a nullable version reference is written out: Python writes a null as `None`. */
  function VersionText(v: Option<DataLakeVersion>): string
  {
    match v
    case None => "None"
    case Some(version) => VersionLabel(version)
  }

  /**
   * `DetailedAccessLog.__str__`: the user and dataset as in an access-right
   * label, then the version's own label in parentheses, or `(None)` once
   * the version has been deleted.
   */
  function LogLabel(e: DetailedAccessLog): (s: string)
    ensures |s| == |e.user| + |e.datasetName| + |VersionText(e.version)| + 6
    ensures s[..|e.user| + 3 + |e.datasetName|] == AccessRightLabel(AccessRight(e.user, e.datasetName, {}, false))
    ensures e.version.None? ==> s[|s| - 7..] == " (None)"
    ensures e.version.Some? ==> s[|s| - |VersionLabel(e.version.value)| - 3..] == " (" + VersionLabel(e.version.value) + ")"
  {
    e.user + " - " + e.datasetName + " (" + VersionText(e.version) + ")"
  }

  /** The name a transaction is shown under: its user name, or "Unknown" when null or empty. */
  function DisplayName(userName: Option<string>): (s: string)
    ensures s != ""
    ensures userName.Some? && userName.value != "" ==> s == userName.value
    ensures userName.None? || userName.value == "" ==> s == "Unknown"
  {
    if userName.Some? && userName.value != "" then userName.value else "Unknown"
  }

  /**
   * `Transaction.__str__`; how a decimal amount is written out is given by
   * `renderAmount`.
   */
  function TransactionLabel(t: Transaction, renderAmount: real -> string): (s: string)
    ensures |s| > |DisplayName(t.userName)| && s[..|DisplayName(t.userName)|] == DisplayName(t.userName)
    ensures s[|s| - 1] == ')'
  {
    DisplayName(t.userName) + " - " + t.productCategory + " - " + renderAmount(t.amount) + " (" + t.status + ")"
  }

  /**
   * Reads a transaction label back into the display name, the category and
   * the status: the name ends at the first '-', the category at the next
   * one, and the status is what the first '(' after that opens.
   */
  function ParseTransactionLabel(s: string): Option<(string, string, string)>
  {
    match CutAt(s, '-', 2)
    case None => None
    case Some((name, rest)) =>
      match CutAt(rest, '-', 2)
      case None => None
      case Some((category, tail)) =>
        match CutAt(tail, '(', 1)
        case None => None
        case Some((_, closing)) =>
          if closing == [] then None else Some((name, category, closing[..|closing| - 1]))
  }

  /**
   * Splits `s` at its first `c`: the text before the blank that precedes
   * `c`, and the text `skip` characters after `c`.
   */
  function CutAt(s: string, c: char, skip: nat): Option<(string, string)>
  {
    match FirstIndex(s, c)
    case None => None
    case Some(i) => if 1 <= i && i + skip <= |s| then Some((s[..i - 1], s[i + skip..])) else None
  }

  /**
   * The display name, the category and the status are recovered from the
   * label when the name and the category hold no '-' and the written amount
   * no '('; the amount itself may be negative.
   */
  lemma TransactionLabelRoundTrip(t: Transaction, renderAmount: real -> string)
    requires '-' !in DisplayName(t.userName) && '-' !in t.productCategory && '(' !in renderAmount(t.amount)
    ensures ParseTransactionLabel(TransactionLabel(t, renderAmount)) == Some((DisplayName(t.userName), t.productCategory, t.status))
  {
    var name := DisplayName(t.userName);
    var amount := renderAmount(t.amount);
    var closing := t.status + ")";
    var tail := amount + " (" + closing;
    var rest := t.productCategory + " - " + tail;
    assert TransactionLabel(t, renderAmount) == name + " - " + rest;
    assert CutAt(name + " - " + rest, '-', 2) == Some((name, rest)) by { CutDash(name, rest); }
    assert CutAt(rest, '-', 2) == Some((t.productCategory, tail)) by { CutDash(t.productCategory, tail); }
    assert CutAt(tail, '(', 1) == Some((amount, closing)) by { CutParen(amount, closing); }
    assert closing[..|closing| - 1] == t.status;
  }

  /** Cutting `a - b` at its first '-' gives back `a` and `b` when `a` holds none. */
  lemma CutDash(a: string, b: string)
    requires '-' !in a
    ensures var s := a + " - " + b;
      FirstIndex(s, '-') == Some(|a| + 1) && s[|a|] == ' ' && s[|a| + 2] == ' ' && CutAt(s, '-', 2) == Some((a, b))
  {
    var s := a + " - " + b;
    assert s == a + (" - " + b);
    FirstIndexAfter(a, " - " + b, '-');
    assert FirstIndex(" - " + b, '-') == Some(1);
    assert s[..|a|] == a && s[|a| + 3..] == b;
  }

  /** Cutting `a (b` at its first '(' gives back `b` when `a` holds none. */
  lemma CutParen(a: string, b: string)
    requires '(' !in a
    ensures var s := a + " (" + b;
      FirstIndex(s, '(') == Some(|a| + 1) && s[|a|] == ' ' && CutAt(s, '(', 1) == Some((a, b))
  {
    var s := a + " (" + b;
    assert s == a + (" (" + b);
    FirstIndexAfter(a, " (" + b, '(');
    assert FirstIndex(" (" + b, '(') == Some(1);
    assert s[..|a|] == a && s[|a| + 2..] == b;
  }

  // ---------------------------------------------------------------------
  // Serialisation of access rights

  /** The record the access-right serializer emits; versions appear as their labels. */
  datatype SerializedRight = SerializedRight(
    user: string,
    datasetName: string,
    allowedVersions: seq<string>,
    canAccessAllVersions: bool)

  /** The labels of the versions of `catalog` (in catalog order) that `r` lists. */
  function AllowedVersionLabels(catalog: seq<DataLakeVersion>, r: AccessRight): (labels: seq<string>)
    ensures |labels| <= |catalog|
    ensures forall s :: s in labels ==> exists v :: v in catalog && v.id in r.allowedVersions && s == VersionLabel(v)
    ensures forall v :: v in catalog && v.id in r.allowedVersions ==> VersionLabel(v) in labels
  {
    if catalog == [] then []
    else
      var rest := AllowedVersionLabels(catalog[1..], r);
      if catalog[0].id in r.allowedVersions then [VersionLabel(catalog[0])] + rest else rest
  }

  /**
   * The access-right listing: every access right in the store, whoever
   * asks, each serialised with its allowed versions as labels.
   */
  function AccessRightList(rights: seq<AccessRight>, catalog: seq<DataLakeVersion>): (out: seq<SerializedRight>)
    ensures |out| == |rights|
    ensures forall i :: 0 <= i < |out| ==>
      out[i].user == rights[i].user && out[i].datasetName == rights[i].datasetName &&
      out[i].canAccessAllVersions == rights[i].canAccessAllVersions &&
      out[i].allowedVersions == AllowedVersionLabels(catalog, rights[i])
  {
    if rights == [] then []
    else
      var r := rights[0];
      [SerializedRight(r.user, r.datasetName, AllowedVersionLabels(catalog, r), r.canAccessAllVersions)]
        + AccessRightList(rights[1..], catalog)
  }
}
