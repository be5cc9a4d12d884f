/**
 * The search backend: the connection made once at start-up, with a bounded
 * number of attempts and a pause between two of them, and the shape of the
 * documents the `transactions` index holds.
 */
module Documents {
  import opened Values

  const DefaultRetries: int := 3

  /** The pause between two attempts, in seconds. */
  const DefaultDelay: nat := 5

  /** The index every document is saved to. */
  const IndexName: string := "transactions"

  /** The first of attempts `0 .. n-1` that succeeds, if any. */
  function FirstSuccess(succeeds: nat -> bool, n: int): (k: Option<nat>)
    ensures k.Some? ==> k.value < n && succeeds(k.value) && forall j :: 0 <= j < k.value ==> !succeeds(j)
    ensures k.None? ==> forall j :: 0 <= j < n ==> !succeeds(j)
    decreases if n < 0 then 0 else n
  {
    if n <= 0 then None
    else match FirstSuccess(succeeds, n - 1)
      case Some(k) => Some(k)
      case None => if succeeds(n - 1) then Some(n - 1) else None
  }

  /**
   * `connect_elasticsearch`: tries to connect at most `maxRetries` times;
   * `succeeds(k)` says whether attempt `k` (from 0) connects. Returns at
   * the first success; after a failure it pauses `delay` seconds, unless
   * that was the last attempt allowed. `pauses` lists the pauses taken.
   * `create_connection` only builds a client and does not contact the
   * server, so an attempt fails only when building the client raises; with
   * the fixed host, attempt 0 nearly always succeeds, and the pauses and a
   * `false` answer are reachable only through such a failure.
   */
  method ConnectElasticsearch(maxRetries: int, delay: nat, succeeds: nat -> bool)
    returns (connected: bool, attempts: nat, pauses: seq<nat>)
    ensures connected <==> FirstSuccess(succeeds, maxRetries).Some?
    ensures connected ==> attempts == FirstSuccess(succeeds, maxRetries).value + 1
    ensures !connected ==> attempts == if maxRetries <= 0 then 0 else maxRetries
    ensures |pauses| == if connected then attempts - 1 else if maxRetries <= 0 then 0 else maxRetries - 1
    ensures forall i :: 0 <= i < |pauses| ==> pauses[i] == delay
  {
    var retries := 0;
    attempts := 0;
    pauses := [];
    while retries < maxRetries
      invariant 0 <= retries && (maxRetries <= 0 ==> retries == 0) && (maxRetries > 0 ==> retries <= maxRetries)
      invariant attempts == retries
      invariant forall j :: 0 <= j < retries ==> !succeeds(j)
      invariant |pauses| == if retries == maxRetries && retries > 0 then retries - 1 else retries
      invariant forall i :: 0 <= i < |pauses| ==> pauses[i] == delay
    {
      attempts := attempts + 1;
      if succeeds(retries) {
        connected := true;
        return;
      }
      retries := retries + 1;
      if retries < maxRetries {
        pauses := pauses + [delay];
      }
    }
    connected := false;
  }

  /** `ELASTICSEARCH_AVAILABLE`: the outcome of connecting once with 3 attempts and 5-second pauses. */
  method ElasticsearchAvailable(succeeds: nat -> bool) returns (available: bool)
    ensures available <==> succeeds(0) || succeeds(1) || succeeds(2)
  {
    var attempts, pauses;
    available, attempts, pauses := ConnectElasticsearch(DefaultRetries, DefaultDelay, succeeds);
  }

  /** The `timestamp` field: parsed when the item's value was truthy, otherwise that value kept as it was. */
  datatype DocTime = ParsedTime(micros: int) | RawTime(raw: Json)

  /**
   * One document of the `transactions` index. Text fields hold the item's
   * values unconverted; `datasetSource` and `version` say where the item
   * was read.
   */
  datatype SearchDocument = SearchDocument(
    transactionId: Json,
    paymentMethod: Json,
    country: Json,
    productCategory: Json,
    status: Json,
    amount: real,
    customerRating: Json,
    timestamp: DocTime,
    userId: Json,
    userName: Json,
    productId: Json,
    datasetSource: string,
    version: string)
}
