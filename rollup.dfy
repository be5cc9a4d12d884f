/**
 * The per-user spending breakdown: the grouped rows (one per user id,
 * payment method and status, with their summed amount and row count) are
 * rolled up into one record per user, holding the user's totals and two
 * insertion-ordered dictionaries, by status and by payment method.
 */
module Rollup {
  import opened Values
  import opened Models

  /** One row of `values('user_id','payment_method','status').annotate(Sum, Count)`. */
  datatype StatRow = StatRow(userId: Option<string>, paymentMethod: string, status: string, totalSpent: Option<real>, count: nat)

  datatype Bucket = Bucket(count: nat, total: real)

  /** An insertion-ordered dictionary of buckets. */
  type Buckets = seq<(string, Bucket)>

  datatype UserStats = UserStats(
    userId: Option<string>,
    totalSpent: real,
    totalTransactions: nat,
    byStatus: Buckets,
    byPayment: Buckets)

  /** A group's amount, a null sum counting as 0. */
  function Amount(row: StatRow): real
  {
    if row.totalSpent.Some? then row.totalSpent.value else 0.0
  }

  function SumCounts(bs: Buckets): nat
  {
    if bs == [] then 0 else bs[0].1.count + SumCounts(bs[1..])
  }

  function SumTotals(bs: Buckets): real
  {
    if bs == [] then 0.0 else bs[0].1.total + SumTotals(bs[1..])
  }

  predicate DistinctKeys(bs: Buckets)
  {
    forall i, j :: 0 <= i < j < |bs| ==> bs[i].0 != bs[j].0
  }

  function Keys(bs: Buckets): set<string>
  {
    set i | 0 <= i < |bs| :: bs[i].0
  }

  /**
   * Adds a group to the bucket of `key`, creating it with zero count and
   * total at the end of the dictionary when the key is new.
   */
  function Bump(bs: Buckets, key: string, count: nat, amount: real): (r: Buckets)
    ensures SumCounts(r) == SumCounts(bs) + count
    ensures SumTotals(r) == SumTotals(bs) + amount
  {
    if bs == [] then [(key, Bucket(count, amount))]
    else if bs[0].0 == key then [(key, Bucket(bs[0].1.count + count, bs[0].1.total + amount))] + bs[1..]
    else [bs[0]] + Bump(bs[1..], key, count, amount)
  }

  /** `d.get(key)`: the bucket of `key`, the first one listed under it. */
  function BucketAt(bs: Buckets, key: string): (b: Option<Bucket>)
    ensures b.None? <==> key !in Keys(bs)
  {
    if bs == [] then None
    else if bs[0].0 == key then Some(bs[0].1)
    else (KeysCons(bs); BucketAt(bs[1..], key))
  }

  /** Bumping a new key appends a bucket holding exactly the count and amount added. */
  lemma {:induction false} BumpNewKey(bs: Buckets, key: string, count: nat, amount: real)
    requires BucketAt(bs, key).None?
    ensures Bump(bs, key, count, amount) == bs + [(key, Bucket(count, amount))]
    ensures BucketAt(Bump(bs, key, count, amount), key) == Some(Bucket(count, amount))
  {
    if bs != [] {
      BumpNewKey(bs[1..], key, count, amount);
      var r := Bump(bs, key, count, amount);
      assert r[1..] == Bump(bs[1..], key, count, amount);
      assert bs == [bs[0]] + bs[1..];
    }
  }

  /** Bumping a known key adds the count and amount to its bucket, in place. */
  lemma {:induction false} BumpKnownKey(bs: Buckets, key: string, count: nat, amount: real)
    requires BucketAt(bs, key).Some?
    ensures var b := BucketAt(bs, key).value;
      BucketAt(Bump(bs, key, count, amount), key) == Some(Bucket(b.count + count, b.total + amount))
    ensures |Bump(bs, key, count, amount)| == |bs|
  {
    var r := Bump(bs, key, count, amount);
    if bs[0].0 == key {
      assert r[0] == (key, Bucket(bs[0].1.count + count, bs[0].1.total + amount));
    } else {
      BumpKnownKey(bs[1..], key, count, amount);
      assert r[1..] == Bump(bs[1..], key, count, amount);
    }
  }

  /** Bumping `key` leaves the bucket of every other key as it was. */
  lemma {:induction false} BumpOthers(bs: Buckets, key: string, count: nat, amount: real, k: string)
    requires k != key
    ensures BucketAt(Bump(bs, key, count, amount), k) == BucketAt(bs, k)
  {
    if bs != [] && bs[0].0 != key {
      BumpOthers(bs[1..], key, count, amount, k);
      var r := Bump(bs, key, count, amount);
      assert r[1..] == Bump(bs[1..], key, count, amount);
    }
  }

  /** Bumping a key adds it to the dictionary's keys, once: keys stay distinct. */
  lemma {:induction false} BumpKeys(bs: Buckets, key: string, count: nat, amount: real)
    ensures Keys(Bump(bs, key, count, amount)) == Keys(bs) + {key}
    ensures DistinctKeys(bs) ==> DistinctKeys(Bump(bs, key, count, amount))
  {
    var r := Bump(bs, key, count, amount);
    if bs != [] {
      KeysCons(bs);
      KeysCons(r);
      DistinctCons(bs);
      DistinctCons(r);
      assert r[0].0 == bs[0].0;
      if bs[0].0 != key {
        BumpKeys(bs[1..], key, count, amount);
        assert r[1..] == Bump(bs[1..], key, count, amount);
      } else {
        assert r[1..] == bs[1..];
      }
    }
  }

  lemma DistinctCons(bs: Buckets)
    requires bs != []
    ensures DistinctKeys(bs) <==> bs[0].0 !in Keys(bs[1..]) && DistinctKeys(bs[1..])
  {
    var tail := bs[1..];
    if DistinctKeys(bs) {
      forall i | 0 <= i < |tail| ensures tail[i].0 != bs[0].0 {
        assert tail[i] == bs[i + 1];
      }
      forall i, j | 0 <= i < j < |tail| ensures tail[i].0 != tail[j].0 {
        assert tail[i] == bs[i + 1] && tail[j] == bs[j + 1];
      }
    }
    if bs[0].0 !in Keys(tail) && DistinctKeys(tail) {
      forall i, j | 0 <= i < j < |bs| ensures bs[i].0 != bs[j].0 {
        assert bs[j] == tail[j - 1];
        if i > 0 {
          assert bs[i] == tail[i - 1];
        }
      }
    }
  }

  lemma KeysCons(bs: Buckets)
    requires bs != []
    ensures Keys(bs) == {bs[0].0} + Keys(bs[1..])
  {
    forall k | k in Keys(bs) ensures k in {bs[0].0} + Keys(bs[1..]) {
      var i :| 0 <= i < |bs| && bs[i].0 == k;
      if i > 0 { assert bs[1..][i - 1] == bs[i]; }
    }
    forall k | k in Keys(bs[1..]) ensures k in Keys(bs) {
      var i :| 0 <= i < |bs[1..]| && bs[1..][i].0 == k;
      assert bs[i + 1] == bs[1..][i];
    }
  }

  /** A user's record before any group is added. */
  function EmptyStats(userId: Option<string>): UserStats
  {
    UserStats(userId, 0.0, 0, [], [])
  }

  /** One iteration of the loop on the user's record. */
  function UpdateUser(u: UserStats, row: StatRow): UserStats
  {
    u.(totalSpent := u.totalSpent + Amount(row),
       totalTransactions := u.totalTransactions + row.count,
       byStatus := Bump(u.byStatus, row.status, row.count, Amount(row)),
       byPayment := Bump(u.byPayment, row.paymentMethod, row.count, Amount(row)))
  }

  /** The position of `userId` in the users dictionary. */
  function IndexOfUser(users: seq<UserStats>, userId: Option<string>): (k: Option<nat>)
    ensures k.Some? ==> k.value < |users| && users[k.value].userId == userId
    ensures k.Some? ==> forall i :: 0 <= i < k.value ==> users[i].userId != userId
    ensures k.None? ==> forall i :: 0 <= i < |users| ==> users[i].userId != userId
  {
    if users == [] then None
    else if users[0].userId == userId then Some(0)
    else match IndexOfUser(users[1..], userId)
      case None => None
      case Some(j) => Some(j + 1)
  }

  /** One iteration of the loop: the row's user gets the row, a new user is appended first. */
  function AddStat(users: seq<UserStats>, row: StatRow): seq<UserStats>
  {
    match IndexOfUser(users, row.userId)
    case None => users + [UpdateUser(EmptyStats(row.userId), row)]
    case Some(k) => users[k := UpdateUser(users[k], row)]
  }

  /** The users dictionary after the loop has run over `stats`. */
  function RollupStats(stats: seq<StatRow>): seq<UserStats>
  {
    if stats == [] then [] else AddStat(RollupStats(stats[..|stats| - 1]), stats[|stats| - 1])
  }

  lemma RollupStep(stats: seq<StatRow>, i: nat)
    requires i < |stats|
    ensures RollupStats(stats[..i + 1]) == AddStat(RollupStats(stats[..i]), stats[i])
  {
    assert stats[..i + 1][..i] == stats[..i];
  }

  /**
   * One pass of `total_spent_by_user_type`'s loop: the user's entry is
   * created if missing, then its totals and both dictionaries are updated.
   */
  method AddGroup(users: seq<UserStats>, row: StatRow) returns (users': seq<UserStats>)
    ensures users' == AddStat(users, row)
  {
    var amount := if row.totalSpent.Some? then row.totalSpent.value else 0.0;
    var k := IndexOfUser(users, row.userId);
    var u := if k.None? then EmptyStats(row.userId) else users[k.value];
    u := u.(totalSpent := u.totalSpent + amount, totalTransactions := u.totalTransactions + row.count);
    u := u.(byStatus := Bump(u.byStatus, row.status, row.count, amount));
    u := u.(byPayment := Bump(u.byPayment, row.paymentMethod, row.count, amount));
    if k.None? {
      users' := users + [u];
    } else {
      users' := users[k.value := u];
    }
  }

  /**
   * `total_spent_by_user_type`'s loop: the nested dictionary is updated
   * group after group; `totalUsers` is its size.
   */
  method TotalSpentByUserType(stats: seq<StatRow>) returns (totalUsers: nat, users: seq<UserStats>)
    ensures users == RollupStats(stats)
    ensures totalUsers == |users|
  {
    users := [];
    var i := 0;
    while i < |stats|
      invariant 0 <= i <= |stats|
      invariant users == RollupStats(stats[..i])
    {
      RollupStep(stats, i);
      users := AddGroup(users, stats[i]);
      i := i + 1;
    }
    assert stats[..|stats|] == stats;
    totalUsers := |users|;
  }

  // ---------------------------------------------------------------------
  // What the roll-up promises

  /** A user record whose totals agree with both of its dictionaries. */
  predicate Consistent(u: UserStats)
  {
    u.totalSpent == SumTotals(u.byStatus) && u.totalSpent == SumTotals(u.byPayment) &&
    u.totalTransactions == SumCounts(u.byStatus) && u.totalTransactions == SumCounts(u.byPayment) &&
    DistinctKeys(u.byStatus) && DistinctKeys(u.byPayment)
  }

  /** The sum of the amounts of `userId`'s groups. */
  function UserSpent(stats: seq<StatRow>, userId: Option<string>): real
  {
    if stats == [] then 0.0
    else UserSpent(stats[..|stats| - 1], userId) + (if stats[|stats| - 1].userId == userId then Amount(stats[|stats| - 1]) else 0.0)
  }

  /** The sum of the counts of `userId`'s groups. */
  function UserCount(stats: seq<StatRow>, userId: Option<string>): nat
  {
    if stats == [] then 0
    else UserCount(stats[..|stats| - 1], userId) + (if stats[|stats| - 1].userId == userId then stats[|stats| - 1].count else 0)
  }

  /** The user ids of the users dictionary. */
  function Ids(users: seq<UserStats>): set<Option<string>>
  {
    set i | 0 <= i < |users| :: users[i].userId
  }

  /** The user ids occurring in the groups. */
  function UserIds(stats: seq<StatRow>): set<Option<string>>
  {
    set j | 0 <= j < |stats| :: stats[j].userId
  }

  /** The invariant the loop keeps over the groups seen so far. */
  ghost predicate RollupInvariant(stats: seq<StatRow>, users: seq<UserStats>)
  {
    (forall i, j :: 0 <= i < j < |users| ==> users[i].userId != users[j].userId) &&
    (forall i :: 0 <= i < |users| ==> Consistent(users[i])) &&
    (forall i :: 0 <= i < |users| ==>
      users[i].totalSpent == UserSpent(stats, users[i].userId) &&
      users[i].totalTransactions == UserCount(stats, users[i].userId)) &&
    Ids(users) == UserIds(stats)
  }

  lemma {:induction false} NoGroupsNoTotals(stats: seq<StatRow>, userId: Option<string>)
    requires forall j :: 0 <= j < |stats| ==> stats[j].userId != userId
    ensures UserSpent(stats, userId) == 0.0 && UserCount(stats, userId) == 0
  {
    if stats != [] {
      NoGroupsNoTotals(stats[..|stats| - 1], userId);
    }
  }

  lemma UpdateKeepsConsistent(u: UserStats, row: StatRow)
    requires Consistent(u)
    ensures Consistent(UpdateUser(u, row))
  {
    BumpKeys(u.byStatus, row.status, row.count, Amount(row));
    BumpKeys(u.byPayment, row.paymentMethod, row.count, Amount(row));
  }

  lemma UserIdsSnoc(stats: seq<StatRow>, row: StatRow)
    ensures UserIds(stats + [row]) == UserIds(stats) + {row.userId}
  {
    var stats' := stats + [row];
    forall id | id in UserIds(stats') ensures id in UserIds(stats) + {row.userId} {
      var j :| 0 <= j < |stats'| && stats'[j].userId == id;
      if j < |stats| { assert stats[j] == stats'[j]; }
    }
    forall id | id in UserIds(stats) ensures id in UserIds(stats') {
      var j :| 0 <= j < |stats| && stats[j].userId == id;
      assert stats'[j] == stats[j];
    }
    assert stats'[|stats|] == row;
  }

  lemma IdsSnoc(users: seq<UserStats>, u: UserStats)
    ensures Ids(users + [u]) == Ids(users) + {u.userId}
  {
    var users' := users + [u];
    forall id | id in Ids(users') ensures id in Ids(users) + {u.userId} {
      var i :| 0 <= i < |users'| && users'[i].userId == id;
      if i < |users| { assert users[i] == users'[i]; }
    }
    forall id | id in Ids(users) ensures id in Ids(users') {
      var i :| 0 <= i < |users| && users[i].userId == id;
      assert users'[i] == users[i];
    }
    assert users'[|users|] == u;
  }

  lemma IdsUpdate(users: seq<UserStats>, k: nat, u: UserStats)
    requires k < |users| && u.userId == users[k].userId
    ensures Ids(users[k := u]) == Ids(users)
  {
    var users' := users[k := u];
    forall id | id in Ids(users') ensures id in Ids(users) {
      var i :| 0 <= i < |users'| && users'[i].userId == id;
      assert users[i].userId == id;
    }
    forall id | id in Ids(users) ensures id in Ids(users') {
      var i :| 0 <= i < |users| && users[i].userId == id;
      assert users'[i].userId == id;
    }
  }

  /** A group of a user not seen before appends that user's record. */
  lemma {:induction false} NewUserKeepsInvariant(stats: seq<StatRow>, users: seq<UserStats>, row: StatRow)
    requires RollupInvariant(stats, users)
    requires IndexOfUser(users, row.userId).None?
    ensures RollupInvariant(stats + [row], AddStat(users, row))
  {
    var stats' := stats + [row];
    assert stats'[..|stats'| - 1] == stats;
    UserIdsSnoc(stats, row);
    assert row.userId !in UserIds(stats);
    NoGroupsNoTotals(stats, row.userId);
    var added := UpdateUser(EmptyStats(row.userId), row);
    UpdateKeepsConsistent(EmptyStats(row.userId), row);
    var users' := AddStat(users, row);
    assert users' == users + [added];
    IdsSnoc(users, added);
    forall i | 0 <= i < |users'|
      ensures users'[i].totalSpent == UserSpent(stats', users'[i].userId)
      ensures users'[i].totalTransactions == UserCount(stats', users'[i].userId)
    {
      if i < |users| {
        assert users'[i] == users[i];
      }
    }
  }

  /** A group of a known user updates that user's record only. */
  lemma {:induction false} KnownUserKeepsInvariant(stats: seq<StatRow>, users: seq<UserStats>, row: StatRow)
    requires RollupInvariant(stats, users)
    requires IndexOfUser(users, row.userId).Some?
    ensures RollupInvariant(stats + [row], AddStat(users, row))
  {
    var stats' := stats + [row];
    assert stats'[..|stats'| - 1] == stats;
    UserIdsSnoc(stats, row);
    var k := IndexOfUser(users, row.userId).value;
    UpdateKeepsConsistent(users[k], row);
    var users' := AddStat(users, row);
    assert users' == users[k := UpdateUser(users[k], row)];
    IdsUpdate(users, k, UpdateUser(users[k], row));
  }

  lemma AddStatKeepsInvariant(stats: seq<StatRow>, users: seq<UserStats>, row: StatRow)
    requires RollupInvariant(stats, users)
    ensures RollupInvariant(stats + [row], AddStat(users, row))
  {
    if IndexOfUser(users, row.userId).None? {
      NewUserKeepsInvariant(stats, users, row);
    } else {
      KnownUserKeepsInvariant(stats, users, row);
    }
  }

  lemma {:induction false} RollupKeepsInvariant(stats: seq<StatRow>)
    ensures RollupInvariant(stats, RollupStats(stats))
  {
    if stats != [] {
      var front := stats[..|stats| - 1];
      RollupKeepsInvariant(front);
      AddStatKeepsInvariant(front, RollupStats(front), stats[|stats| - 1]);
      assert front + [stats[|stats| - 1]] == stats;
    }
  }

  /**
   * For every user of the answer: the total spent is the sum of that
   * user's group amounts (a null sum counting 0), the transaction count
   * the sum of their group counts, and the counts, and separately the
   * totals, of each of the two dictionaries add up to those figures.
   */
  lemma RollupTotals(stats: seq<StatRow>, i: nat)
    requires i < |RollupStats(stats)|
    ensures var u := RollupStats(stats)[i];
      u.totalSpent == UserSpent(stats, u.userId) && u.totalTransactions == UserCount(stats, u.userId) &&
      SumTotals(u.byStatus) == u.totalSpent && SumTotals(u.byPayment) == u.totalSpent &&
      SumCounts(u.byStatus) == u.totalTransactions && SumCounts(u.byPayment) == u.totalTransactions
  {
    RollupKeepsInvariant(stats);
  }

  lemma {:induction false} DistinctCardinality(users: seq<UserStats>)
    requires forall i, j :: 0 <= i < j < |users| ==> users[i].userId != users[j].userId
    ensures |Ids(users)| == |users|
  {
    if users != [] {
      var n := |users| - 1;
      var front := users[..n];
      DistinctCardinality(front);
      assert Ids(users) == Ids(front) + {users[n].userId} by {
        forall id | id in Ids(users) ensures id in Ids(front) + {users[n].userId} {
          var i :| 0 <= i < |users| && users[i].userId == id;
          if i < n { assert front[i] == users[i]; }
        }
        forall id | id in Ids(front) ensures id in Ids(users) {
          var i :| 0 <= i < |front| && front[i].userId == id;
          assert users[i] == front[i];
        }
      }
      assert users[n].userId !in Ids(front);
    }
  }

  /** `total_users` is the number of distinct user ids among the groups. */
  lemma TotalUsersCountsDistinctIds(stats: seq<StatRow>)
    ensures |RollupStats(stats)| == |UserIds(stats)|
  {
    RollupKeepsInvariant(stats);
    DistinctCardinality(RollupStats(stats));
  }

  // ---------------------------------------------------------------------
  // The grouping query feeding the loop

  /** The position of the group of `(userId, payment, status)`. */
  function GroupOf(groups: seq<StatRow>, userId: Option<string>, payment: string, status: string): (k: Option<nat>)
    ensures k.Some? ==>
      k.value < |groups| &&
      groups[k.value].userId == userId && groups[k.value].paymentMethod == payment && groups[k.value].status == status
    ensures k.None? ==> forall i :: 0 <= i < |groups| ==>
      !(groups[i].userId == userId && groups[i].paymentMethod == payment && groups[i].status == status)
  {
    if groups == [] then None
    else if groups[0].userId == userId && groups[0].paymentMethod == payment && groups[0].status == status then Some(0)
    else match GroupOf(groups[1..], userId, payment, status)
      case None => None
      case Some(j) => Some(j + 1)
  }

  /** A transaction joins the group of its key; a new key opens a group at the end. */
  function AddRow(groups: seq<StatRow>, t: Transaction): seq<StatRow>
  {
    match GroupOf(groups, t.userId, t.paymentMethod, t.status)
    case None => groups + [StatRow(t.userId, t.paymentMethod, t.status, Some(t.amount), 1)]
    case Some(k) => groups[k := groups[k].(totalSpent := Some(Amount(groups[k]) + t.amount), count := groups[k].count + 1)]
  }

  /**
   * `values('user_id', 'payment_method', 'status').annotate(total_spent=Sum,
   * transaction_count=Count)`: one group per key, in order of first appearance.
   */
  function StatGroups(rows: seq<Transaction>): seq<StatRow>
  {
    if rows == [] then [] else AddRow(StatGroups(rows[..|rows| - 1]), rows[|rows| - 1])
  }

  /** The number of `userId`'s transactions. */
  function RowCount(rows: seq<Transaction>, userId: Option<string>): nat
  {
    if rows == [] then 0
    else RowCount(rows[..|rows| - 1], userId) + (if rows[|rows| - 1].userId == userId then 1 else 0)
  }

  /** The sum of the amounts of `userId`'s transactions. */
  function RowSpent(rows: seq<Transaction>, userId: Option<string>): real
  {
    if rows == [] then 0.0
    else RowSpent(rows[..|rows| - 1], userId) + (if rows[|rows| - 1].userId == userId then rows[|rows| - 1].amount else 0.0)
  }

  function CountOf(row: StatRow, userId: Option<string>): nat
  {
    if row.userId == userId then row.count else 0
  }

  function SpentOf(row: StatRow, userId: Option<string>): real
  {
    if row.userId == userId then Amount(row) else 0.0
  }

  lemma UserTotalsSnoc(groups: seq<StatRow>, row: StatRow, userId: Option<string>)
    ensures UserCount(groups + [row], userId) == UserCount(groups, userId) + CountOf(row, userId)
    ensures UserSpent(groups + [row], userId) == UserSpent(groups, userId) + SpentOf(row, userId)
  {
    assert (groups + [row])[..|groups|] == groups;
  }

  /** Replacing one group changes a user's totals by the difference of the two groups. */
  lemma {:induction false} UserTotalsUpdate(groups: seq<StatRow>, k: nat, row: StatRow, userId: Option<string>)
    requires k < |groups|
    ensures UserCount(groups[k := row], userId) + CountOf(groups[k], userId) == UserCount(groups, userId) + CountOf(row, userId)
    ensures UserSpent(groups[k := row], userId) + SpentOf(groups[k], userId) == UserSpent(groups, userId) + SpentOf(row, userId)
  {
    var n := |groups| - 1;
    var front := groups[..n];
    if k == n {
      assert groups[k := row] == front + [row];
      assert groups == front + [groups[n]];
      UserTotalsSnoc(front, row, userId);
      UserTotalsSnoc(front, groups[n], userId);
    } else {
      UserTotalsUpdate(front, k, row, userId);
      assert groups[k := row] == front[k := row] + [groups[n]];
      assert groups == front + [groups[n]];
      UserTotalsSnoc(front[k := row], groups[n], userId);
      UserTotalsSnoc(front, groups[n], userId);
    }
  }

  lemma AddRowTotals(groups: seq<StatRow>, t: Transaction, userId: Option<string>)
    ensures UserCount(AddRow(groups, t), userId) == UserCount(groups, userId) + (if t.userId == userId then 1 else 0)
    ensures UserSpent(AddRow(groups, t), userId) == UserSpent(groups, userId) + (if t.userId == userId then t.amount else 0.0)
  {
    match GroupOf(groups, t.userId, t.paymentMethod, t.status)
    case None =>
      UserTotalsSnoc(groups, StatRow(t.userId, t.paymentMethod, t.status, Some(t.amount), 1), userId);
    case Some(k) =>
      UserTotalsUpdate(groups, k, groups[k].(totalSpent := Some(Amount(groups[k]) + t.amount), count := groups[k].count + 1), userId);
  }

  /**
   * The groups keep every transaction: per user, their counts add up to the
   * user's number of transactions and their sums to the user's amounts.
   */
  lemma {:induction false} GroupsKeepUserTotals(rows: seq<Transaction>, userId: Option<string>)
    ensures UserCount(StatGroups(rows), userId) == RowCount(rows, userId)
    ensures UserSpent(StatGroups(rows), userId) == RowSpent(rows, userId)
  {
    if rows != [] {
      GroupsKeepUserTotals(rows[..|rows| - 1], userId);
      AddRowTotals(StatGroups(rows[..|rows| - 1]), rows[|rows| - 1], userId);
    }
  }

  /**
   * End to end: each user of the breakdown has as `total_transactions` the
   * number of their transactions and as `total_spent` the sum of their
   * amounts.
   */
  lemma BreakdownMatchesTransactions(rows: seq<Transaction>, i: nat)
    requires i < |RollupStats(StatGroups(rows))|
    ensures var u := RollupStats(StatGroups(rows))[i];
      u.totalTransactions == RowCount(rows, u.userId) && u.totalSpent == RowSpent(rows, u.userId)
  {
    var u := RollupStats(StatGroups(rows))[i];
    RollupTotals(StatGroups(rows), i);
    GroupsKeepUserTotals(rows, u.userId);
  }
}
