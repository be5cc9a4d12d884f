/**
 * The three reports over the transaction table: spending per user (the
 * roll-up of the grouping query), the best-selling products, and the
 * amount spent in the last five minutes. Each is reserved to users holding
 * an access right on TRANSACTIONS_COMPLETED.
 */
module Reports {
  import opened Values
  import opened Models
  import Access
  import Transactions
  import Rollup

  const DeniedDetail: string := "Access Denied: You don't have permission to access TRANSACTIONS_COMPLETED"

  /** How a report request ends, with the HTTP status it is answered with. */
  datatype ReportOutcome<T> =
    | Denied
    | BadRequest(error: string)
    | Failed
    | Report(value: T)
  {
    function Status(): int
    {
      match this
      case Denied => 403
      case BadRequest(_) => 400
      case Failed => 500
      case Report(_) => 200
    }
  }

  // ---------------------------------------------------------------------
  // Spending per user

  datatype Breakdown = Breakdown(totalUsers: nat, users: seq<Rollup.UserStats>)

  /**
   * The body of `total_spent_by_user_type` once the right has been checked:
   * the table is loaded first when it is empty (a failing load answers
   * 500); the answer is the roll-up of the grouping of the table's rows.
   * Without the right it answers `refusal`.
   */
  method SpendingReport(store: Transactions.TransactionStore, rights: seq<AccessRight>, user: string,
                        lake: Option<seq<Entry>>, p: Transactions.Parsers, refusal: ReportOutcome<Breakdown>)
    returns (out: ReportOutcome<Breakdown>)
    modifies store
    ensures !Access.CheckDatasetAccess(rights, user, Transactions.Completed) ==> out == refusal && store.rows == old(store.rows)
    ensures old(store.rows) != [] ==> store.rows == old(store.rows)
    ensures Access.CheckDatasetAccess(rights, user, Transactions.Completed) && old(store.rows) == [] ==>
      store.rows == Transactions.LakeRows(lake, p)
    ensures Access.CheckDatasetAccess(rights, user, Transactions.Completed) ==>
      (out.Failed? <==> old(store.rows) == [] && Transactions.CompletedIsFile(lake)) &&
      (out.Failed? || out.Report?)
    ensures Access.CheckDatasetAccess(rights, user, Transactions.Completed) && out.Report? ==>
      out.value.users == Rollup.RollupStats(Rollup.StatGroups(store.rows)) &&
      out.value.totalUsers == |out.value.users|
  {
    if !Access.CheckDatasetAccess(rights, user, Transactions.Completed) {
      return refusal;
    }
    var crashed := store.EnsureLoaded(rights, user, lake, p);
    if crashed {
      return Failed;
    }
    var totalUsers, users := Rollup.TotalSpentByUserType(Rollup.StatGroups(store.rows));
    out := Report(Breakdown(totalUsers, users));
  }

  /**
   * `total_spent_by_user_type` as written. The loop assigns `status`, which
   * makes `status` a local name for the whole function, so building the 403
   * answer (`status.HTTP_403_FORBIDDEN`, outside the `try`) raises
   * UnboundLocalError: without the right the request ends in a 500 and the
   * table is left as it was. With the right the report is as intended.
   */
  method TotalSpentByUserType(store: Transactions.TransactionStore, rights: seq<AccessRight>, user: string,
                              lake: Option<seq<Entry>>, p: Transactions.Parsers)
    returns (out: ReportOutcome<Breakdown>)
    modifies store
    ensures !out.Denied? && !out.BadRequest?
    ensures !Access.CheckDatasetAccess(rights, user, Transactions.Completed) ==> out == Failed && store.rows == old(store.rows)
    ensures old(store.rows) != [] ==> store.rows == old(store.rows)
    ensures Access.CheckDatasetAccess(rights, user, Transactions.Completed) && old(store.rows) == [] ==>
      store.rows == Transactions.LakeRows(lake, p)
    ensures out.Failed? <==>
      !Access.CheckDatasetAccess(rights, user, Transactions.Completed) ||
      (old(store.rows) == [] && Transactions.CompletedIsFile(lake))
    ensures out.Report? ==>
      out.value.users == Rollup.RollupStats(Rollup.StatGroups(store.rows)) &&
      out.value.totalUsers == |out.value.users|
  {
    out := SpendingReport(store, rights, user, lake, p, Failed);
  }

  /** `total_spent_by_user_type` as evidently intended: refused with 403 exactly without the access right. */
  method IntendedTotalSpentByUserType(store: Transactions.TransactionStore, rights: seq<AccessRight>, user: string,
                                      lake: Option<seq<Entry>>, p: Transactions.Parsers)
    returns (out: ReportOutcome<Breakdown>)
    modifies store
    ensures out.Denied? <==> !Access.CheckDatasetAccess(rights, user, Transactions.Completed)
    ensures out.Denied? ==> out.Status() == 403 && store.rows == old(store.rows)
    ensures old(store.rows) != [] ==> store.rows == old(store.rows)
    ensures Access.CheckDatasetAccess(rights, user, Transactions.Completed) && old(store.rows) == [] ==>
      store.rows == Transactions.LakeRows(lake, p)
    ensures out.Failed? <==>
      Access.CheckDatasetAccess(rights, user, Transactions.Completed) && old(store.rows) == [] &&
      Transactions.CompletedIsFile(lake)
    ensures out.Report? ==>
      out.value.users == Rollup.RollupStats(Rollup.StatGroups(store.rows)) &&
      out.value.totalUsers == |out.value.users|
    ensures !out.BadRequest?
  {
    out := SpendingReport(store, rights, user, lake, p, Denied);
  }

  // ---------------------------------------------------------------------
  // Best-selling products

  /** One row of `values('product_id', 'product_category').annotate(total_bought, total_spent)`. */
  datatype ProductGroup = ProductGroup(productId: Option<string>, productCategory: string, bought: nat, spent: Option<real>)

  /** One product of the answer. */
  datatype ProductLine = ProductLine(productId: Option<string>, productCategory: string, totalBought: nat, totalSpent: real)

  /** The `limit` query parameter: absent, or given as text that may or may not read as an integer. */
  datatype LimitParameter = DefaultLimit | LimitText(parsed: Option<int>)

  datatype TopAnswer = TopAnswer(limit: int, products: seq<ProductLine>)

  const DefaultTop: int := 10

  /** The position of the group of `(productId, category)`. */
  function ProductGroupOf(groups: seq<ProductGroup>, productId: Option<string>, category: string): (k: Option<nat>)
    ensures k.Some? ==>
      k.value < |groups| && groups[k.value].productId == productId && groups[k.value].productCategory == category
    ensures k.None? ==> forall i :: 0 <= i < |groups| ==>
      !(groups[i].productId == productId && groups[i].productCategory == category)
  {
    if groups == [] then None
    else if groups[0].productId == productId && groups[0].productCategory == category then Some(0)
    else match ProductGroupOf(groups[1..], productId, category)
      case None => None
      case Some(j) => Some(j + 1)
  }

  function SpentOrZero(spent: Option<real>): real
  {
    if spent.Some? then spent.value else 0.0
  }

  /** A transaction joins its product's group; a new product opens one at the end. */
  function AddProduct(groups: seq<ProductGroup>, t: Transaction): seq<ProductGroup>
  {
    match ProductGroupOf(groups, t.productId, t.productCategory)
    case None => groups + [ProductGroup(t.productId, t.productCategory, 1, Some(t.amount))]
    case Some(k) => groups[k := groups[k].(bought := groups[k].bought + 1, spent := Some(SpentOrZero(groups[k].spent) + t.amount))]
  }

  /** The grouping by product, in order of first appearance. */
  function ProductGroups(rows: seq<Transaction>): seq<ProductGroup>
  {
    if rows == [] then [] else AddProduct(ProductGroups(rows[..|rows| - 1]), rows[|rows| - 1])
  }

  function TotalBought(groups: seq<ProductGroup>): nat
  {
    if groups == [] then 0 else TotalBought(groups[..|groups| - 1]) + groups[|groups| - 1].bought
  }

  lemma TotalBoughtSnoc(groups: seq<ProductGroup>, g: ProductGroup)
    ensures TotalBought(groups + [g]) == TotalBought(groups) + g.bought
  {
    assert (groups + [g])[..|groups|] == groups;
  }

  lemma {:induction false} TotalBoughtUpdate(groups: seq<ProductGroup>, k: nat, g: ProductGroup)
    requires k < |groups|
    ensures TotalBought(groups[k := g]) + groups[k].bought == TotalBought(groups) + g.bought
  {
    var n := |groups| - 1;
    var front := groups[..n];
    assert groups == front + [groups[n]];
    if k == n {
      assert groups[k := g] == front + [g];
      TotalBoughtSnoc(front, g);
      TotalBoughtSnoc(front, groups[n]);
    } else {
      TotalBoughtUpdate(front, k, g);
      assert groups[k := g] == front[k := g] + [groups[n]];
      TotalBoughtSnoc(front[k := g], groups[n]);
      TotalBoughtSnoc(front, groups[n]);
    }
  }

  /** A transaction adds one purchase to the groups' total, whether it opens a group or joins one. */
  lemma AddProductCountsOne(groups: seq<ProductGroup>, t: Transaction)
    ensures TotalBought(AddProduct(groups, t)) == TotalBought(groups) + 1
  {
    match ProductGroupOf(groups, t.productId, t.productCategory)
    case None =>
      TotalBoughtSnoc(groups, ProductGroup(t.productId, t.productCategory, 1, Some(t.amount)));
    case Some(k) =>
      TotalBoughtUpdate(groups, k, groups[k].(bought := groups[k].bought + 1, spent := Some(SpentOrZero(groups[k].spent) + t.amount)));
  }

  /** The number of transactions of product `(productId, category)`: what `Count('id')` gives its group. */
  function CountKey(rows: seq<Transaction>, productId: Option<string>, category: string): nat
  {
    if rows == [] then 0
    else
      var last := rows[|rows| - 1];
      CountKey(rows[..|rows| - 1], productId, category) +
      (if last.productId == productId && last.productCategory == category then 1 else 0)
  }

  /** No two groups share a `(product_id, product_category)` key. */
  predicate DistinctProductKeys(groups: seq<ProductGroup>)
  {
    forall i, j :: 0 <= i < j < |groups| ==>
      !(groups[i].productId == groups[j].productId && groups[i].productCategory == groups[j].productCategory)
  }

  /** Each group counts exactly the transactions of its key. */
  predicate CountsMatch(groups: seq<ProductGroup>, rows: seq<Transaction>)
  {
    forall k :: 0 <= k < |groups| ==> groups[k].bought == CountKey(rows, groups[k].productId, groups[k].productCategory)
  }

  /** A key without a group has no transaction. */
  ghost predicate AbsentUncounted(groups: seq<ProductGroup>, rows: seq<Transaction>)
  {
    forall productId, category :: ProductGroupOf(groups, productId, category).None? ==> CountKey(rows, productId, category) == 0
  }

  lemma CountKeySnoc(rows: seq<Transaction>, t: Transaction, productId: Option<string>, category: string)
    ensures CountKey(rows + [t], productId, category) ==
      CountKey(rows, productId, category) + (if t.productId == productId && t.productCategory == category then 1 else 0)
  {
    assert (rows + [t])[..|rows|] == rows;
  }

  /** A key missing from a list of groups is missing from any list that starts with the same keys. */
  lemma LookupKeepsGroups(groups: seq<ProductGroup>, more: seq<ProductGroup>, productId: Option<string>, category: string)
    requires |groups| <= |more|
    requires forall i :: 0 <= i < |groups| ==>
      groups[i].productId == more[i].productId && groups[i].productCategory == more[i].productCategory
    ensures ProductGroupOf(more, productId, category).None? ==> ProductGroupOf(groups, productId, category).None?
  {
    if ProductGroupOf(groups, productId, category).Some? {
      var k := ProductGroupOf(groups, productId, category).value;
      assert more[k].productId == productId && more[k].productCategory == category;
    }
  }

  /** A transaction of a product with no group opens one counting it once; the other groups keep their counts. */
  lemma AddProductNew(groups: seq<ProductGroup>, rows: seq<Transaction>, t: Transaction)
    requires DistinctProductKeys(groups) && CountsMatch(groups, rows) && AbsentUncounted(groups, rows)
    requires ProductGroupOf(groups, t.productId, t.productCategory).None?
    ensures var gs := groups + [ProductGroup(t.productId, t.productCategory, 1, Some(t.amount))];
      DistinctProductKeys(gs) && CountsMatch(gs, rows + [t]) && AbsentUncounted(gs, rows + [t])
  {
    var gs := groups + [ProductGroup(t.productId, t.productCategory, 1, Some(t.amount))];
    assert CountKey(rows, t.productId, t.productCategory) == 0;
    forall i, j | 0 <= i < j < |gs|
      ensures !(gs[i].productId == gs[j].productId && gs[i].productCategory == gs[j].productCategory)
    {
      assert gs[i] == groups[i];
      if j < |groups| {
        assert gs[j] == groups[j];
      }
    }
    forall k | 0 <= k < |gs|
      ensures gs[k].bought == CountKey(rows + [t], gs[k].productId, gs[k].productCategory)
    {
      CountKeySnoc(rows, t, gs[k].productId, gs[k].productCategory);
      if k < |groups| {
        assert gs[k] == groups[k];
      }
    }
    forall productId, category | ProductGroupOf(gs, productId, category).None?
      ensures CountKey(rows + [t], productId, category) == 0
    {
      CountKeySnoc(rows, t, productId, category);
      assert gs[|groups|].productId != productId || gs[|groups|].productCategory != category;
      LookupKeepsGroups(groups, gs, productId, category);
    }
  }

  /** A transaction of a product with a group adds one to that group's count only. */
  lemma AddProductKnown(groups: seq<ProductGroup>, rows: seq<Transaction>, t: Transaction, k0: nat)
    requires DistinctProductKeys(groups) && CountsMatch(groups, rows) && AbsentUncounted(groups, rows)
    requires ProductGroupOf(groups, t.productId, t.productCategory) == Some(k0)
    ensures var gs := groups[k0 := groups[k0].(bought := groups[k0].bought + 1, spent := Some(SpentOrZero(groups[k0].spent) + t.amount))];
      DistinctProductKeys(gs) && CountsMatch(gs, rows + [t]) && AbsentUncounted(gs, rows + [t])
  {
    var gs := groups[k0 := groups[k0].(bought := groups[k0].bought + 1, spent := Some(SpentOrZero(groups[k0].spent) + t.amount))];
    assert forall i :: 0 <= i < |gs| ==> gs[i].productId == groups[i].productId && gs[i].productCategory == groups[i].productCategory;
    forall k | 0 <= k < |gs|
      ensures gs[k].bought == CountKey(rows + [t], gs[k].productId, gs[k].productCategory)
    {
      CountKeySnoc(rows, t, gs[k].productId, gs[k].productCategory);
      if k != k0 {
        assert gs[k] == groups[k];
        if k < k0 {
          assert !(groups[k].productId == groups[k0].productId && groups[k].productCategory == groups[k0].productCategory);
        } else {
          assert !(groups[k0].productId == groups[k].productId && groups[k0].productCategory == groups[k].productCategory);
        }
      }
    }
    forall productId, category | ProductGroupOf(gs, productId, category).None?
      ensures CountKey(rows + [t], productId, category) == 0
    {
      CountKeySnoc(rows, t, productId, category);
      assert !(gs[k0].productId == productId && gs[k0].productCategory == category);
      LookupKeepsGroups(groups, gs, productId, category);
    }
  }

  /** Counting one more transaction keeps the keys distinct and every group's count exact. */
  lemma AddProductKeepsCounts(groups: seq<ProductGroup>, rows: seq<Transaction>, t: Transaction)
    requires DistinctProductKeys(groups) && CountsMatch(groups, rows) && AbsentUncounted(groups, rows)
    ensures DistinctProductKeys(AddProduct(groups, t))
    ensures CountsMatch(AddProduct(groups, t), rows + [t])
    ensures AbsentUncounted(AddProduct(groups, t), rows + [t])
  {
    match ProductGroupOf(groups, t.productId, t.productCategory)
    case None =>
      assert AddProduct(groups, t) == groups + [ProductGroup(t.productId, t.productCategory, 1, Some(t.amount))];
      AddProductNew(groups, rows, t);
    case Some(k0) =>
      assert AddProduct(groups, t) ==
        groups[k0 := groups[k0].(bought := groups[k0].bought + 1, spent := Some(SpentOrZero(groups[k0].spent) + t.amount))];
      AddProductKnown(groups, rows, t, k0);
  }

  /**
   * The grouping by product is `values('product_id', 'product_category')`
   * with `Count('id')`: keys are distinct, each group's `total_bought` is
   * the number of transactions of its key, and a key with no group has none.
   */
  lemma {:induction false} ProductGroupsByKey(rows: seq<Transaction>)
    ensures DistinctProductKeys(ProductGroups(rows))
    ensures CountsMatch(ProductGroups(rows), rows)
    ensures AbsentUncounted(ProductGroups(rows), rows)
  {
    if rows != [] {
      var front := rows[..|rows| - 1];
      ProductGroupsByKey(front);
      var t := rows[|rows| - 1];
      assert front + [t] == rows;
      AddProductKeepsCounts(ProductGroups(front), front, t);
    }
  }

  /** Every transaction is counted: the groups' `total_bought` values add up to the number of transactions. */
  lemma {:induction false} ProductGroupsCountEveryRow(rows: seq<Transaction>)
    ensures TotalBought(ProductGroups(rows)) == |rows|
  {
    if rows != [] {
      var front := rows[..|rows| - 1];
      ProductGroupsCountEveryRow(front);
      AddProductCountsOne(ProductGroups(front), rows[|rows| - 1]);
    }
  }

  predicate NonIncreasing(s: seq<ProductGroup>)
  {
    forall i, j :: 0 <= i < j < |s| ==> s[i].bought >= s[j].bought
  }

  /** Places `g` before the first group bought no more often than it. */
  function Insert(g: ProductGroup, sorted: seq<ProductGroup>): (r: seq<ProductGroup>)
    ensures multiset(r) == multiset(sorted) + multiset{g}
    ensures |r| == |sorted| + 1
  {
    if sorted == [] || sorted[0].bought <= g.bought then [g] + sorted
    else
      assert sorted == [sorted[0]] + sorted[1..];
      [sorted[0]] + Insert(g, sorted[1..])
  }

  predicate AtMost(s: seq<ProductGroup>, bound: nat)
  {
    forall i :: 0 <= i < |s| ==> s[i].bought <= bound
  }

  lemma {:induction false} InsertAtMost(g: ProductGroup, sorted: seq<ProductGroup>, bound: nat)
    requires AtMost(sorted, bound) && g.bought <= bound
    ensures AtMost(Insert(g, sorted), bound)
  {
    if sorted != [] && sorted[0].bought > g.bought {
      InsertAtMost(g, sorted[1..], bound);
    }
  }

  lemma {:induction false} InsertKeepsOrder(g: ProductGroup, sorted: seq<ProductGroup>)
    requires NonIncreasing(sorted)
    ensures NonIncreasing(Insert(g, sorted))
  {
    if sorted != [] && sorted[0].bought > g.bought {
      var tail := sorted[1..];
      var rest := Insert(g, tail);
      InsertKeepsOrder(g, tail);
      InsertAtMost(g, tail, sorted[0].bought);
      var r := Insert(g, sorted);
      assert r == [sorted[0]] + rest;
      forall i, j | 0 <= i < j < |r| ensures r[i].bought >= r[j].bought {
        assert r[j] == rest[j - 1];
        if i > 0 {
          assert r[i] == rest[i - 1];
        }
      }
    }
  }

  /**
   * `order_by('-total_bought')`: the groups by number of purchases, most
   * bought first; groups bought equally often stay in their first-appearance
   * order.
   */
  function SortByBought(groups: seq<ProductGroup>): (r: seq<ProductGroup>)
    ensures multiset(r) == multiset(groups)
    ensures |r| == |groups|
    ensures NonIncreasing(r)
  {
    if groups == [] then []
    else
      assert groups == [groups[0]] + groups[1..];
      InsertKeepsOrder(groups[0], SortByBought(groups[1..]));
      Insert(groups[0], SortByBought(groups[1..]))
  }

  /** The first `n` elements, or all of them when there are fewer: Python's `s[:n]` for `n > 0`. */
  function Take<T>(s: seq<T>, n: nat): (r: seq<T>)
    ensures |r| == if n < |s| then n else |s|
    ensures r == s[..|r|]
  {
    if n < |s| then s[..n] else s
  }

  function Line(g: ProductGroup): (l: ProductLine)
    ensures l.productId == g.productId && l.productCategory == g.productCategory && l.totalBought == g.bought
    ensures g.spent.None? ==> l.totalSpent == 0.0
    ensures g.spent.Some? ==> l.totalSpent == g.spent.value
  {
    ProductLine(g.productId, g.productCategory, g.bought, SpentOrZero(g.spent))
  }

  function Lines(groups: seq<ProductGroup>): (ls: seq<ProductLine>)
    ensures |ls| == |groups|
    ensures forall i :: 0 <= i < |groups| ==> ls[i] == Line(groups[i])
  {
    if groups == [] then [] else [Line(groups[0])] + Lines(groups[1..])
  }

  /** The `n` most bought groups, most bought first. */
  function TopGroups(rows: seq<Transaction>, n: nat): seq<ProductGroup>
  {
    Take(SortByBought(ProductGroups(rows)), n)
  }

  /** The groups `TopGroups` leaves out. */
  function LeftOutGroups(rows: seq<Transaction>, n: nat): seq<ProductGroup>
  {
    var sorted := SortByBought(ProductGroups(rows));
    sorted[|Take(sorted, n)|..]
  }

  /**
   * The top groups and the groups left out are together exactly the
   * groups of the table; the top is ordered by purchases, holds `n` groups
   * unless there are fewer, and no group left out was bought more often
   * than any group in the top.
   */
  lemma TopGroupsAreTheBest(rows: seq<Transaction>, n: nat)
    ensures var top := TopGroups(rows, n); var rest := LeftOutGroups(rows, n);
      multiset(top) + multiset(rest) == multiset(ProductGroups(rows)) &&
      |top| == (if n < |ProductGroups(rows)| then n else |ProductGroups(rows)|) &&
      NonIncreasing(top) &&
      forall i, j :: 0 <= i < |top| && 0 <= j < |rest| ==> rest[j].bought <= top[i].bought
  {
    var sorted := SortByBought(ProductGroups(rows));
    var top := TopGroups(rows, n);
    var rest := LeftOutGroups(rows, n);
    SplitOrdered(sorted, |top|);
    assert top == sorted[..|top|] && rest == sorted[|top|..];
  }

  /** Cutting an ordered sequence keeps its front ordered and no element behind the cut above one before it. */
  lemma SplitOrdered(sorted: seq<ProductGroup>, k: nat)
    requires k <= |sorted| && NonIncreasing(sorted)
    ensures NonIncreasing(sorted[..k])
    ensures multiset(sorted[..k]) + multiset(sorted[k..]) == multiset(sorted)
    ensures forall i, j :: 0 <= i < k && 0 <= j < |sorted| - k ==> sorted[k..][j].bought <= sorted[..k][i].bought
  {
    assert sorted == sorted[..k] + sorted[k..];
    forall i, j | 0 <= i < k && 0 <= j < |sorted| - k ensures sorted[k..][j].bought <= sorted[..k][i].bought {
      assert sorted[k..][j] == sorted[k + j];
    }
  }

  /**
   * `top_products`: refused without the access right; a limit that does not
   * read as an integer, or is not positive, answers 400; otherwise the
   * lines of the `limit` most bought groups, most bought first.
   */
  function TopProducts(rights: seq<AccessRight>, user: string, rows: seq<Transaction>, limit: LimitParameter): (out: ReportOutcome<TopAnswer>)
    ensures out.Denied? <==> !Access.CheckDatasetAccess(rights, user, Transactions.Completed)
    ensures out == BadRequest("Invalid limit parameter") <==>
      Access.CheckDatasetAccess(rights, user, Transactions.Completed) && limit == LimitText(None)
    ensures out == BadRequest("Limit must be a positive integer") <==>
      Access.CheckDatasetAccess(rights, user, Transactions.Completed) && limit.LimitText? && limit.parsed.Some? && limit.parsed.value <= 0
    ensures out.Report? ==> out.value.limit > 0 && |out.value.products| <= out.value.limit
    ensures out.Report? ==> (limit.DefaultLimit? ==> out.value.limit == DefaultTop) && (limit.LimitText? ==> out.value.limit == limit.parsed.value)
    ensures out.Report? ==> out.value.products == Lines(TopGroups(rows, out.value.limit))
    ensures out.BadRequest? ==> out.error == "Invalid limit parameter" || out.error == "Limit must be a positive integer"
    ensures (Access.CheckDatasetAccess(rights, user, Transactions.Completed) && limit != LimitText(None) &&
             (limit.LimitText? ==> limit.parsed.value > 0)) ==>
      out.Report?
    ensures !out.Failed?
  {
    if !Access.CheckDatasetAccess(rights, user, Transactions.Completed) then Denied
    else if limit == LimitText(None) then BadRequest("Invalid limit parameter")
    else
      var n := if limit.DefaultLimit? then DefaultTop else limit.parsed.value;
      if n <= 0 then BadRequest("Limit must be a positive integer")
      else
        Report(TopAnswer(n, Lines(TopGroups(rows, n))))
  }

  // ---------------------------------------------------------------------
  // Spending in the last five minutes

  /** Five minutes, in the microseconds timestamps count. */
  const FiveMinutes: int := 5 * 60 * 1000000

  datatype WindowAnswer = WindowAnswer(startTime: int, endTime: int, totalSpent: real)

  /** The sum of the amounts of the rows stamped at or after `since`; 0 when there is none. */
  function SpentSince(rows: seq<Transaction>, since: int): real
  {
    if rows == [] then 0.0
    else SpentSince(rows[..|rows| - 1], since) + (if rows[|rows| - 1].timestamp >= since then rows[|rows| - 1].amount else 0.0)
  }

  /** The rows stamped at or after `since`, in table order. */
  function Recent(rows: seq<Transaction>, since: int): (r: seq<Transaction>)
    ensures forall i :: 0 <= i < |r| ==> r[i].timestamp >= since
    ensures multiset(r) <= multiset(rows)
    ensures forall t :: t in rows && t.timestamp >= since ==> t in r
  {
    if rows == [] then []
    else
      var front := rows[..|rows| - 1];
      var last := rows[|rows| - 1];
      var earlier := Recent(front, since);
      assert rows == front + [last];
      assert multiset(rows) == multiset(front) + multiset{last};
      assert forall t :: t in rows ==> t in front || t == last;
      if last.timestamp >= since then
        assert multiset(earlier + [last]) == multiset(earlier) + multiset{last};
        earlier + [last]
      else
        earlier
  }

  /** The window keeps every qualifying row as often as the table holds it, and no other row. */
  lemma {:induction false} RecentCounts(rows: seq<Transaction>, since: int)
    ensures forall t :: multiset(Recent(rows, since))[t] == if t.timestamp >= since then multiset(rows)[t] else 0
  {
    if rows != [] {
      var front := rows[..|rows| - 1];
      var last := rows[|rows| - 1];
      RecentCounts(front, since);
      assert rows == front + [last];
      assert multiset(rows) == multiset(front) + multiset{last};
      if last.timestamp >= since {
        assert multiset(Recent(rows, since)) == multiset(Recent(front, since)) + multiset{last};
      }
    }
  }

  /** Two equal transactions in the window are both kept. */
  lemma RecentKeepsRepeatedRows(t: Transaction)
    ensures multiset(Recent([t, t], t.timestamp))[t] == 2
  {
    RecentCounts([t, t], t.timestamp);
    assert multiset([t, t])[t] == 2;
  }

  function SumAmounts(rows: seq<Transaction>): real
  {
    if rows == [] then 0.0 else SumAmounts(rows[..|rows| - 1]) + rows[|rows| - 1].amount
  }

  lemma SumAmountsSnoc(rows: seq<Transaction>, t: Transaction)
    ensures SumAmounts(rows + [t]) == SumAmounts(rows) + t.amount
  {
    assert (rows + [t])[..|rows|] == rows;
  }

  /** The window sum is the sum of the amounts of the recent rows. */
  lemma {:induction false} SpentSinceSumsRecent(rows: seq<Transaction>, since: int)
    ensures SpentSince(rows, since) == SumAmounts(Recent(rows, since))
  {
    if rows != [] {
      var front := rows[..|rows| - 1];
      var last := rows[|rows| - 1];
      SpentSinceSumsRecent(front, since);
      if last.timestamp >= since {
        SumAmountsSnoc(Recent(front, since), last);
      } else {
        assert Recent(rows, since) == Recent(front, since);
      }
    }
  }

  /** With no row in the window the sum is 0 (the `Coalesce(..., 0.0)`). */
  lemma {:induction false} NothingRecentSpendsZero(rows: seq<Transaction>, since: int)
    requires forall i :: 0 <= i < |rows| ==> rows[i].timestamp < since
    ensures SpentSince(rows, since) == 0.0
  {
    if rows != [] {
      NothingRecentSpendsZero(rows[..|rows| - 1], since);
    }
  }

  /** With non-negative amounts, a wider window never holds less. */
  lemma {:induction false} WiderWindowSpendsMore(rows: seq<Transaction>, early: int, late: int)
    requires early <= late
    requires forall i :: 0 <= i < |rows| ==> rows[i].amount >= 0.0
    ensures 0.0 <= SpentSince(rows, late) <= SpentSince(rows, early)
  {
    if rows != [] {
      WiderWindowSpendsMore(rows[..|rows| - 1], early, late);
    }
  }

  /**
   * `last_5_minutes_spent`: refused without the access right; otherwise the
   * sum over the rows of the five minutes before `now`. `endNow` is the
   * clock read again for the `end_time` field.
   */
  function Last5MinutesSpent(rights: seq<AccessRight>, user: string, rows: seq<Transaction>, now: int, endNow: int): (out: ReportOutcome<WindowAnswer>)
    ensures out.Denied? <==> !Access.CheckDatasetAccess(rights, user, Transactions.Completed)
    ensures !out.Denied? ==> out.Report?
    ensures out.Report? ==>
      out.value.startTime == now - FiveMinutes && out.value.endTime == endNow &&
      out.value.totalSpent == SumAmounts(Recent(rows, now - FiveMinutes))
  {
    if !Access.CheckDatasetAccess(rights, user, Transactions.Completed) then Denied
    else
      SpentSinceSumsRecent(rows, now - FiveMinutes);
      Report(WindowAnswer(now - FiveMinutes, endNow, SpentSince(rows, now - FiveMinutes)))
  }
}
