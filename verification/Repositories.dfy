/** The database: its tables, and the queries and updates that the repositories offer. */
module Repositories {
  import opened Options
  import opened StateMachine
  import opened Rows
  import opened Ledger
  import opened Effects

  datatype Update = Updated | NotFound | InvalidTransition

  class Database {
    var users: seq<int>
    var subs: seq<Subscription>
    var payments: seq<Payment>

    // The history that the properties are about; no decision depends on it.
    ghost var drafts: set<nat>
    ghost var acts: seq<Act>
    ghost var jobs: map<nat, RowJobs>

    ghost function View(now: int): World
      reads this
    {
      World(Store(users, subs, payments), now, drafts, acts, jobs)
    }

    constructor ()
      ensures forall now :: View(now) == World(Store([], [], []), now, {}, [], map[])
    {
      users, subs, payments := [], [], [];
      drafts, acts, jobs := {}, [], map[];
    }

    // ----- users -----

    method GetOrCreateUser(telegramId: int) returns (id: nat)
      modifies this`users
      ensures users == EnsureUser(old(users), telegramId)
      ensures Knows(old(users), users, id, telegramId)
      ensures id == UserId(old(users), telegramId) && id < |users| && users[id] == telegramId
    {
      id := UserId(users, telegramId);
      if id == |users| {
        users := users + [telegramId];
      }
    }

    // ----- subscriptions -----

    /** The user's live row with the latest expiry; any of them if there is a tie. */
    method GetActiveOrExpiringForUser(user: nat) returns (live: Option<nat>)
      ensures live.None? <==> !HasLive(subs, user)
      ensures live.Some? ==> LatestLive(subs, user, live.value) && LastsLongest(subs, user, live.value)
      ensures live.None? ==> HasNoAccess(subs, user)
    {
      if HasLive(subs, user) {
        ghost var best := SomeLatestLive(subs, user, |subs|);
        assert LatestLive(subs, user, best);
        var i: nat :| i < |subs| && LatestLive(subs, user, i);
        LatestLastsLongest(subs, user, i);
        live := Some(i);
      } else {
        NoneLiveNoAccess(subs, user);
        live := None;
      }
    }

    method CreateSubscription(user: nat) returns (id: nat)
      modifies this`subs
      ensures id == |old(subs)| && subs == old(subs) + [Placeholder(user)]
      ensures subs[id] == Subscription(user, PENDING, None, None)
    {
      id := |subs|;
      subs := subs + [Placeholder(user)];
    }

    method UpdateStatus(id: nat, to: Status, expiresAt: Option<int>) returns (r: Update)
      modifies this`subs
      ensures r == if id >= |old(subs)| then NotFound
                   else if CanTransition(old(subs)[id].status, to) then Updated else InvalidTransition
      ensures !r.Updated? ==> subs == old(subs)
      ensures r.Updated? ==>
                var row := old(subs)[id];
                subs == old(subs)[id := row.(status := to,
                                             expiresAt := if expiresAt.Some? then expiresAt else row.expiresAt)]
    {
      if id >= |subs| {
        return NotFound;
      }
      if !CanTransition(subs[id].status, to) {
        return InvalidTransition;
      }
      subs := subs[id := subs[id].(status := to)];
      if expiresAt.Some? {
        subs := subs[id := subs[id].(expiresAt := expiresAt)];
      }
      r := Updated;
    }

    method SetLastWarningDaysLeft(id: nat, days: Option<int>) returns (r: Update)
      modifies this`subs
      ensures r == if id >= |old(subs)| then NotFound else Updated
      ensures subs == if r.Updated? then old(subs)[id := old(subs)[id].(lastWarning := days)] else old(subs)
    {
      if id >= |subs| {
        return NotFound;
      }
      subs := subs[id := subs[id].(lastWarning := days)];
      r := Updated;
    }

    method ListExpiringWithin(now: int) returns (ids: seq<nat>)
      ensures ListsDue(subs, now, ids)
      ensures forall i: nat :: i in ids <==>
                i < |subs| && GivesAccess(subs[i]) && subs[i].expiresAt.Some?
                && now <= subs[i].expiresAt.value <= now + 259_200_000_000
    {
      ids := [];
      for i := 0 to |subs|
        invariant ListsDue(subs[..i], now, ids)
      {
        if Due(subs[i], now) {
          ids := ids + [i];
        }
      }
      assert subs[..|subs|] == subs;
    }

    method ListExpired(now: int) returns (ids: seq<nat>)
      ensures ListsExpired(subs, now, ids)
      ensures forall i: nat :: i in ids <==>
                i < |subs| && GivesAccess(subs[i]) && subs[i].expiresAt.Some? && subs[i].expiresAt.value < now
    {
      ids := [];
      for i := 0 to |subs|
        invariant ListsExpired(subs[..i], now, ids)
      {
        if Expired(subs[i], now) {
          ids := ids + [i];
        }
      }
      assert subs[..|subs|] == subs;
    }

    /** The (user, id) pairs of all live rows. */
    method LiveRowKeys() returns (rows: seq<(nat, nat)>)
      ensures forall a, b :: 0 <= a < b < |rows| ==> rows[a].1 < rows[b].1
      ensures forall a :: 0 <= a < |rows| ==> LiveRowOf(subs, rows[a].0, rows[a].1)
      ensures forall i: nat :: i < |subs| && IsLive(subs[i].status) ==> (subs[i].user, i) in rows
    {
      rows := [];
      for i := 0 to |subs|
        invariant forall a, b :: 0 <= a < b < |rows| ==> rows[a].1 < rows[b].1
        invariant forall a :: 0 <= a < |rows| ==> rows[a].1 < i && LiveRowOf(subs, rows[a].0, rows[a].1)
        invariant forall j: nat :: j < i && IsLive(subs[j].status) ==> (subs[j].user, j) in rows
      {
        if IsLive(subs[i].status) {
          rows := rows + [(subs[i].user, i)];
        }
      }
    }

    // ----- payments -----

    /** The first payment that points at the row. */
    method GetForSubscription(sub: nat) returns (payment: Option<nat>)
      ensures payment == OwnedBy(payments, sub)
    {
      payment := OwnedBy(payments, sub);
    }

    /** Whether a payment with this key exists. */
    method GetByProviderRef(charge: Charge) returns (found: bool)
      ensures found <==> Recorded(payments, charge)
      ensures found <==> !KeyIsFree(payments, charge)
    {
      found := Recorded(payments, charge);
    }

    /** Inserts a payment; refused, with nothing inserted, when its key is taken. */
    method CreatePayment(sub: nat, charge: Charge) returns (created: bool)
      modifies this`payments
      ensures created <==> !Recorded(old(payments), charge)
      ensures created <==> KeyIsFree(old(payments), charge)
      ensures payments == if created then old(payments) + [Payment(sub, charge)] else old(payments)
    {
      created := !Recorded(payments, charge);
      if created {
        payments := payments + [Payment(sub, charge)];
      }
    }

    method RepointSubscription(from: nat, target: nat)
      modifies this`payments
      ensures payments == Repointed(old(payments), from, target)
      ensures forall k :: 0 <= k < |payments| ==>
                payments[k] == Payment(if old(payments)[k].sub == from then target else old(payments)[k].sub,
                                       old(payments)[k].charge)
    {
      payments := Repointed(payments, from, target);
    }
  }
}
