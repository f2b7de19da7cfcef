/** The report of users who hold more than one live row. */
module Duplicates {
  import opened StateMachine
  import opened Rows
  import opened Ledger
  import opened Invariants
  import opened Repositories

  /** The ids of one user's rows, in the order given. */
  function IdsOf(rows: seq<(nat, nat)>, user: nat): seq<nat> {
    if rows == [] then []
    else
      var n := |rows| - 1;
      var before := IdsOf(rows[..n], user);
      if rows[n].0 == user then before + [rows[n].1] else before
  }

  /** The users in order of first appearance. */
  function FirstSeen(rows: seq<(nat, nat)>): seq<nat> {
    if rows == [] then []
    else
      var n := |rows| - 1;
      var before := FirstSeen(rows[..n]);
      if rows[n].0 in before then before else before + [rows[n].0]
  }

  /** Groups rows by user: the dictionary, and its keys in order of first appearance. */
  method GroupByUser(rows: seq<(nat, nat)>) returns (byUser: map<nat, seq<nat>>, order: seq<nat>)
    ensures forall a, b :: 0 <= a < b < |order| ==> order[a] != order[b]
    ensures forall user :: user in byUser <==> user in order
    ensures order == FirstSeen(rows)
    ensures forall user :: IdsOf(rows, user) == if user in byUser then byUser[user] else []
  {
    byUser, order := map[], [];
    for n := 0 to |rows|
      invariant forall a, b :: 0 <= a < b < |order| ==> order[a] != order[b]
      invariant forall user :: user in byUser <==> user in order
      invariant order == FirstSeen(rows[..n])
      invariant forall user :: IdsOf(rows[..n], user) == if user in byUser then byUser[user] else []
    {
      var (user, id) := rows[n];
      if user !in byUser {
        byUser := byUser[user := []];
        order := order + [user];
      }
      byUser := byUser[user := byUser[user] + [id]];
      assert rows[..n + 1][..n] == rows[..n];
    }
    assert rows[..|rows|] == rows;
  }

  // ----- the order of the report -----

  /** The rows come in the order of their ids. */
  predicate Increasing(rows: seq<(nat, nat)>) {
    forall a, b :: 0 <= a < b < |rows| ==> rows[a].1 < rows[b].1
  }

  predicate IdsIncrease(ids: seq<nat>) {
    forall i, j :: 0 <= i < j < |ids| ==> ids[i] < ids[j]
  }

  lemma IdsOneMore(rows: seq<(nat, nat)>, row: (nat, nat), user: nat)
    ensures IdsOf(rows + [row], user) == if row.0 == user then IdsOf(rows, user) + [row.1] else IdsOf(rows, user)
  {
    assert (rows + [row])[..|rows|] == rows;
  }

  lemma FirstSeenOneMore(rows: seq<(nat, nat)>, row: (nat, nat))
    ensures FirstSeen(rows + [row]) ==
            if row.0 in FirstSeen(rows) then FirstSeen(rows) else FirstSeen(rows) + [row.0]
  {
    assert (rows + [row])[..|rows|] == rows;
  }

  /** Exactly the users met have ids, and each is met once. */
  lemma {:induction false} FirstSeenMembers(rows: seq<(nat, nat)>)
    ensures forall user :: user in FirstSeen(rows) <==> IdsOf(rows, user) != []
    ensures forall a, b :: 0 <= a < b < |FirstSeen(rows)| ==> FirstSeen(rows)[a] != FirstSeen(rows)[b]
    decreases |rows|
  {
    if rows != [] {
      var before, row := rows[..|rows| - 1], rows[|rows| - 1];
      FirstSeenMembers(before);
      FirstSeenOneMore(before, row);
      forall user ensures user in FirstSeen(before + [row]) <==> IdsOf(before + [row], user) != [] {
        IdsOneMore(before, row, user);
      }
      assert before + [row] == rows;
    }
  }

  /** The ids increase and stay below `later`. */
  predicate IncreaseBelow(ids: seq<nat>, later: int) {
    IdsIncrease(ids) && forall k :: 0 <= k < |ids| ==> ids[k] < later
  }

  lemma IncreaseOneMore(ids: seq<nat>, id: nat, later: int)
    requires IncreaseBelow(ids, id) && id < later
    ensures IncreaseBelow(ids + [id], later) && IncreaseBelow(ids, later)
  {
  }

  /** Each user's ids increase and stay below any later id. */
  lemma {:induction false} IdsInOrder(rows: seq<(nat, nat)>, user: nat, later: int)
    requires Increasing(rows) && forall a :: 0 <= a < |rows| ==> rows[a].1 < later
    ensures IncreaseBelow(IdsOf(rows, user), later)
    decreases |rows|
  {
    if rows != [] {
      var before, row := rows[..|rows| - 1], rows[|rows| - 1];
      IdsInOrder(before, user, row.1);
      IncreaseOneMore(IdsOf(before, user), row.1, later);
      IdsOneMore(before, row, user);
      assert before + [row] == rows;
    }
  }

  /** The first id of one user comes before that of another. */
  ghost predicate MetBefore(rows: seq<(nat, nat)>, u: nat, v: nat) {
    IdsOf(rows, u) != [] && IdsOf(rows, v) != [] && IdsOf(rows, u)[0] < IdsOf(rows, v)[0]
  }

  lemma MetBeforeOneMore(rows: seq<(nat, nat)>, row: (nat, nat), u: nat, v: nat)
    requires MetBefore(rows, u, v)
    ensures MetBefore(rows + [row], u, v)
  {
    IdsOneMore(rows, row, u);
    IdsOneMore(rows, row, v);
  }

  lemma MetLast(rows: seq<(nat, nat)>, row: (nat, nat), u: nat)
    requires IdsOf(rows, u) != [] && IdsOf(rows, u)[0] < row.1 && IdsOf(rows, row.0) == []
    ensures MetBefore(rows + [row], u, row.0)
  {
    IdsOneMore(rows, row, u);
    IdsOneMore(rows, row, row.0);
  }

  /** The users are met in the order of their first ids. */
  lemma {:induction false} UsersInOrder(rows: seq<(nat, nat)>, a: nat, b: nat)
    requires Increasing(rows) && a < b < |FirstSeen(rows)|
    ensures MetBefore(rows, FirstSeen(rows)[a], FirstSeen(rows)[b])
    decreases |rows|
  {
    var before, row := rows[..|rows| - 1], rows[|rows| - 1];
    var seen := FirstSeen(before);
    FirstSeenOneMore(before, row);
    assert before + [row] == rows;
    if b < |seen| {
      UsersInOrder(before, a, b);
      MetBeforeOneMore(before, row, seen[a], seen[b]);
    } else {
      FirstSeenMembers(before);
      assert seen[a] in seen && row.0 !in seen;
      IdsInOrder(before, seen[a], row.1);
      MetLast(before, row, seen[a]);
    }
  }

  /** The user is reported. */
  ghost predicate Reported(offenders: seq<(nat, seq<nat>)>, user: nat) {
    exists a :: 0 <= a < |offenders| && offenders[a].0 == user
  }

  lemma ReportedOneMore(offenders: seq<(nat, seq<nat>)>, one: (nat, seq<nat>))
    ensures forall user :: Reported(offenders + [one], user) <==> Reported(offenders, user) || user == one.0
  {
    var more := offenders + [one];
    forall user ensures Reported(more, user) <==> Reported(offenders, user) || user == one.0 {
      if Reported(offenders, user) {
        var a :| 0 <= a < |offenders| && offenders[a].0 == user;
        assert more[a].0 == user;
      }
      if user == one.0 {
        assert more[|offenders|].0 == user;
      }
    }
  }

  /** Those of the users who have more than one id, in the order given, each with all of their ids. */
  function Multiple(rows: seq<(nat, nat)>, users: seq<nat>): seq<(nat, seq<nat>)> {
    if users == [] then []
    else
      var n := |users| - 1;
      var before := Multiple(rows, users[..n]);
      if |IdsOf(rows, users[n])| > 1 then before + [(users[n], IdsOf(rows, users[n]))] else before
  }

  lemma MultipleOneMore(rows: seq<(nat, nat)>, users: seq<nat>, user: nat)
    ensures Multiple(rows, users + [user]) ==
            if |IdsOf(rows, user)| > 1 then Multiple(rows, users) + [(user, IdsOf(rows, user))]
            else Multiple(rows, users)
  {
    assert (users + [user])[..|users|] == users;
  }

  /** The report names users in the order of their first ids, and each user's ids in order. */
  ghost predicate ReportInOrder(offenders: seq<(nat, seq<nat>)>) {
    && (forall a :: 0 <= a < |offenders| ==> offenders[a].1 != [] && IdsIncrease(offenders[a].1))
    && (forall a, b :: 0 <= a < b < |offenders| ==> offenders[a].1[0] < offenders[b].1[0])
  }

  /** The first ids of the users increase in the order given. */
  ghost predicate FirstIdsIncrease(rows: seq<(nat, nat)>, users: seq<nat>) {
    && (forall a :: 0 <= a < |users| ==> IdsOf(rows, users[a]) != [] && IdsIncrease(IdsOf(rows, users[a])))
    && (forall a, b :: 0 <= a < b < |users| ==> IdsOf(rows, users[a])[0] < IdsOf(rows, users[b])[0])
  }

  /** What the report says of the users: each at most once, with all ids, and exactly those with more than one. */
  ghost predicate ReportsMultiple(rows: seq<(nat, nat)>, users: seq<nat>, offenders: seq<(nat, seq<nat>)>) {
    && (forall a :: 0 <= a < |offenders| ==>
          offenders[a].0 in users && offenders[a].1 == IdsOf(rows, offenders[a].0))
    && (forall a, b :: 0 <= a < b < |offenders| ==> offenders[a].0 != offenders[b].0)
    && (forall user :: Reported(offenders, user) <==> user in users && |IdsOf(rows, user)| > 1)
  }

  lemma ReportsOneMore(rows: seq<(nat, nat)>, users: seq<nat>, offenders: seq<(nat, seq<nat>)>, user: nat)
    requires ReportsMultiple(rows, users, offenders) && user !in users
    ensures ReportsMultiple(rows, users + [user],
                            if |IdsOf(rows, user)| > 1 then offenders + [(user, IdsOf(rows, user))] else offenders)
  {
    if |IdsOf(rows, user)| > 1 {
      ReportedOneMore(offenders, (user, IdsOf(rows, user)));
    }
  }

  lemma MultipleReportsMore(rows: seq<(nat, nat)>, users: seq<nat>, user: nat)
    requires ReportsMultiple(rows, users, Multiple(rows, users)) && user !in users
    ensures ReportsMultiple(rows, users + [user], Multiple(rows, users + [user]))
  {
    ReportsOneMore(rows, users, Multiple(rows, users), user);
    MultipleOneMore(rows, users, user);
  }

  lemma {:induction false} MultipleReports(rows: seq<(nat, nat)>, users: seq<nat>)
    requires forall a, b :: 0 <= a < b < |users| ==> users[a] != users[b]
    ensures ReportsMultiple(rows, users, Multiple(rows, users))
    decreases |users|
  {
    if users != [] {
      var before, user := users[..|users| - 1], users[|users| - 1];
      MultipleReports(rows, before);
      MultipleReportsMore(rows, before, user);
      assert before + [user] == users;
    }
  }

  lemma OrderOneMore(offenders: seq<(nat, seq<nat>)>, one: (nat, seq<nat>))
    requires ReportInOrder(offenders) && one.1 != [] && IdsIncrease(one.1)
    requires forall a :: 0 <= a < |offenders| ==> offenders[a].1[0] < one.1[0]
    ensures ReportInOrder(offenders + [one])
  {
  }

  lemma {:induction false} MultipleInOrder(rows: seq<(nat, nat)>, users: seq<nat>, later: int)
    requires FirstIdsIncrease(rows, users)
    requires forall a :: 0 <= a < |users| ==> IdsOf(rows, users[a])[0] < later
    ensures ReportInOrder(Multiple(rows, users))
    ensures forall a :: 0 <= a < |Multiple(rows, users)| ==> Multiple(rows, users)[a].1[0] < later
    decreases |users|
  {
    if users != [] {
      var n := |users| - 1;
      var before, user := users[..n], users[n];
      MultipleInOrder(rows, before, IdsOf(rows, user)[0]);
      MultipleOneMore(rows, before, user);
      assert users == before + [user];
      if |IdsOf(rows, user)| > 1 {
        OrderOneMore(Multiple(rows, before), (user, IdsOf(rows, user)));
      }
    }
  }

  /** With the rows in order of id, the report is in order. */
  lemma ReportIsInOrder(rows: seq<(nat, nat)>)
    requires Increasing(rows)
    ensures ReportInOrder(Multiple(rows, FirstSeen(rows)))
  {
    FirstSeenMembers(rows);
    var order, later := FirstSeen(rows), if rows == [] then 0 else rows[|rows| - 1].1 + 1;
    forall a: nat | a < |order|
      ensures IdsOf(rows, order[a]) != [] && IdsIncrease(IdsOf(rows, order[a])) && IdsOf(rows, order[a])[0] < later
    {
      IdsInOrder(rows, order[a], later);
    }
    forall a: nat, b: nat | a < b < |order| ensures MetBefore(rows, order[a], order[b]) {
      UsersInOrder(rows, a, b);
    }
    MultipleInOrder(rows, order, later);
  }

  // ----- the report -----

  lemma ReportMeans(rows: seq<(nat, nat)>, offenders: seq<(nat, seq<nat>)>)
    requires offenders == Multiple(rows, FirstSeen(rows))
    ensures forall a, b :: 0 <= a < b < |offenders| ==> offenders[a].0 != offenders[b].0
    ensures forall a :: 0 <= a < |offenders| ==> offenders[a].1 == IdsOf(rows, offenders[a].0)
    ensures forall user :: Reported(offenders, user) <==> |IdsOf(rows, user)| > 1
    ensures Increasing(rows) ==> ReportInOrder(offenders)
  {
    FirstSeenMembers(rows);
    MultipleReports(rows, FirstSeen(rows));
    if Increasing(rows) {
      ReportIsInOrder(rows);
    }
  }

  lemma TakeOneMore(order: seq<nat>, n: nat)
    requires n < |order|
    ensures order[..n + 1] == order[..n] + [order[n]]
  {
  }

  /** The loop over the dictionary. */
  method ReportMultiple(rows: seq<(nat, nat)>, byUser: map<nat, seq<nat>>, order: seq<nat>)
      returns (offenders: seq<(nat, seq<nat>)>)
    requires forall a :: 0 <= a < |order| ==> order[a] in byUser && byUser[order[a]] == IdsOf(rows, order[a])
    ensures offenders == Multiple(rows, order)
  {
    offenders := [];
    for n := 0 to |order|
      invariant offenders == Multiple(rows, order[..n])
    {
      var user, ids := order[n], byUser[order[n]];
      TakeOneMore(order, n);
      MultipleOneMore(rows, order[..n], user);
      if |ids| > 1 {
        offenders := offenders + [(user, ids)];
      }
    }
    assert order[..|order|] == order;
  }

  /** Reports each user with more than one live row once, with all of that user's ids in order. */
  method GroupDuplicates(rows: seq<(nat, nat)>) returns (offenders: seq<(nat, seq<nat>)>)
    ensures forall a, b :: 0 <= a < b < |offenders| ==> offenders[a].0 != offenders[b].0
    ensures forall a :: 0 <= a < |offenders| ==> offenders[a].1 == IdsOf(rows, offenders[a].0)
    ensures forall user :: Reported(offenders, user) <==> |IdsOf(rows, user)| > 1
    ensures Increasing(rows) ==> ReportInOrder(offenders)
  {
    var byUser, order := GroupByUser(rows);
    offenders := ReportMultiple(rows, byUser, order);
    ReportMeans(rows, offenders);
  }

  /** `rows` lists every live row of the table once, with its user, in order of id. */
  ghost predicate ListsLive(subs: seq<Subscription>, rows: seq<(nat, nat)>) {
    && (forall a, b :: 0 <= a < b < |rows| ==> rows[a].1 < rows[b].1)
    && (forall a :: 0 <= a < |rows| ==> LiveRowOf(subs, rows[a].0, rows[a].1))
    && (forall i: nat :: i < |subs| && IsLive(subs[i].status) ==> (subs[i].user, i) in rows)
  }

  lemma {:induction false} IdsOfMembers(rows: seq<(nat, nat)>, user: nat)
    requires forall a, b :: 0 <= a < b < |rows| ==> rows[a].1 < rows[b].1
    ensures var ids := IdsOf(rows, user);
            && (forall i :: i in ids <==> (user, i) in rows)
            && (forall a, b :: 0 <= a < b < |ids| ==> ids[a] != ids[b])
    decreases |rows|
  {
    if rows != [] {
      var n := |rows| - 1;
      IdsOfMembers(rows[..n], user);
      assert rows == rows[..n] + [rows[n]];
      if rows[n].0 == user {
        assert (user, rows[n].1) !in rows[..n];
      }
    }
  }

  lemma {:induction false} DistinctCount(ids: seq<nat>, s: set<nat>)
    requires forall i :: i in ids <==> i in s
    requires forall a, b :: 0 <= a < b < |ids| ==> ids[a] != ids[b]
    ensures |ids| == |s|
    decreases |ids|
  {
    if ids == [] {
      assert s == {};
    } else {
      var n := |ids| - 1;
      assert ids == ids[..n] + [ids[n]];
      DistinctCount(ids[..n], s - {ids[n]});
      assert ids[n] in s;
    }
  }

  /** One user's ids in the list are exactly that user's live rows. */
  lemma IdsAreLiveRows(subs: seq<Subscription>, rows: seq<(nat, nat)>, user: nat, ids: seq<nat>)
    requires ListsLive(subs, rows) && ids == IdsOf(rows, user)
    ensures forall i :: i in ids <==> i in LiveRows(subs, user)
    ensures |ids| == |LiveRows(subs, user)|
  {
    IdsOfMembers(rows, user);
    forall i | i in ids ensures i in LiveRows(subs, user) {
      assert (user, i) in rows;
    }
    DistinctCount(ids, LiveRows(subs, user));
  }

  /** The report names exactly the users with more than one live row, each once, each with all of
      their live rows in order of id, and in the order of their first ones. */
  method ListUsersWithMultipleLiveSubscriptions(db: Database) returns (offenders: seq<(nat, seq<nat>)>)
    ensures forall a, b :: 0 <= a < b < |offenders| ==> offenders[a].0 != offenders[b].0
    ensures forall a :: 0 <= a < |offenders| ==>
              (forall i :: i in offenders[a].1 <==> i in LiveRows(db.subs, offenders[a].0))
              && |offenders[a].1| == |LiveRows(db.subs, offenders[a].0)|
    ensures forall user :: Reported(offenders, user) <==> |LiveRows(db.subs, user)| > 1
    ensures ReportInOrder(offenders)
  {
    var rows := db.LiveRowKeys();
    offenders := GroupDuplicates(rows);
    assert ListsLive(db.subs, rows);
    forall user
      ensures forall i :: i in IdsOf(rows, user) <==> i in LiveRows(db.subs, user)
      ensures |IdsOf(rows, user)| == |LiveRows(db.subs, user)|
    {
      IdsAreLiveRows(db.subs, rows, user, IdsOf(rows, user));
    }
  }

  /** The report is empty exactly when everyone has at most one live row. */
  lemma EmptyReportMeansNoDuplicates(subs: seq<Subscription>, offenders: seq<(nat, seq<nat>)>)
    requires forall user :: Reported(offenders, user) <==> |LiveRows(subs, user)| > 1
    ensures offenders == [] <==> forall user :: |LiveRows(subs, user)| <= 1
  {
    if offenders != [] {
      assert Reported(offenders, offenders[0].0);
    }
  }
}
