/** The removal job as it runs: status hops, the safety net, the calls to Telegram. */
module AutoKick {
  import opened Options
  import opened StateMachine
  import opened Rows
  import opened Ledger
  import opened Repositories
  import KickBatch
  import KickRace

  type Settings = KickBatch.Settings
  type Telegram = KickBatch.Telegram
  type Call = KickBatch.Call

  /** Each hop is its own update; a refused hop ends the walk and leaves the hops before it in place. */
  method AdvanceToKicked(db: Database, id: nat, listed: Status) returns (allowed: bool)
    requires id < |db.subs|
    modifies db`subs
    ensures var progress := KickBatch.AdvanceToKicked(old(db.subs)[id].status, listed);
            && allowed == progress.allowed
            && db.subs == old(db.subs)[id := old(db.subs)[id].(status := progress.status)]
  {
    var status := listed;
    if status == ACTIVE {
      var hop := db.UpdateStatus(id, EXPIRING, None);
      if !hop.Updated? {
        return false;
      }
      status := EXPIRING;
    }
    if status == EXPIRING {
      var hop := db.UpdateStatus(id, EXPIRED, None);
      if !hop.Updated? {
        return false;
      }
    }
    var hop := db.UpdateStatus(id, KICKED, None);
    allowed := hop.Updated?;
  }

  /** Looks only at the live row that comes first: the one with the latest expiry, or one without an expiry. */
  method FindOtherLiveSubscription(db: Database, user: nat, now: int) returns (other: Option<nat>)
    ensures other.Some? <==> AccessSeen(db.subs, user, now)
    ensures other.Some? ==> LatestLive(db.subs, user, other.value)
  {
    var live := db.GetActiveOrExpiringForUser(user);
    if live.Some? && db.subs[live.value].expiresAt.Some? && db.subs[live.value].expiresAt.value > now {
      other := live;
    } else {
      other := None;
    }
  }

  method RemoveFromChannel(settings: Settings, telegram: Telegram, i: nat, telegramId: int) returns (calls: seq<Call>)
    ensures calls == KickBatch.RemovalCalls(settings, telegram, i, telegramId)
    ensures |calls| <= 3
    ensures |calls| > 0 <==> settings.channel
    ensures |calls| > 1 <==> settings.channel && !settings.dryRun && telegram.admin(i) != Some(true)
    ensures |calls| > 2 <==> |calls| > 1 && telegram.ban(i).reported
    ensures |calls| > 0 ==> calls[0] == KickBatch.Lookup(telegramId)
    ensures |calls| > 1 ==> calls[1] == KickBatch.Ban(telegramId, telegram.ban(i))
    ensures |calls| > 2 ==> calls[2] == KickBatch.Unban(telegramId, telegram.unban(i))
  {
    calls := [];
    if !settings.channel {
      return;
    }
    calls := calls + [KickBatch.Lookup(telegramId)];
    var protected := telegram.admin(i) == Some(true);
    if protected {
      return;
    }
    if settings.dryRun {
      return;
    }
    calls := calls + [KickBatch.Ban(telegramId, telegram.ban(i))];
    if telegram.ban(i).reported {
      calls := calls + [KickBatch.Unban(telegramId, telegram.unban(i))];
    }
  }

  method KickOne(db: Database, listed: Status, settings: Settings, telegram: Telegram, now: int, i: nat)
      returns (calls: seq<Call>)
    requires i < |db.subs|
    modifies db`subs
    ensures KickBatch.Outcome(db.View(now).store, calls) ==
            KickBatch.KickOne(old(db.View(now)).store, listed, settings, telegram, now, i)
    ensures var allowed := KickBatch.AdvanceToKicked(old(db.subs)[i].status, listed).allowed;
            var user := db.subs[i].user;
            if allowed && user < |db.users| && !AccessSeen(db.subs, user, now) && !settings.dryRun then
              calls != [] && calls[|calls| - 1] == KickBatch.Message(db.users[user], telegram.message(i))
            else forall k :: 0 <= k < |calls| ==> calls[k].Lookup?
  {
    calls := [];
    var allowed := AdvanceToKicked(db, i, listed);
    if !allowed {
      return;
    }
    var user := db.subs[i].user;
    if user >= |db.users| {
      return;
    }
    var other := FindOtherLiveSubscription(db, user, now);
    if other.Some? {
      return;
    }
    var telegramId := db.users[user];
    calls := RemoveFromChannel(settings, telegram, i, telegramId);
    if settings.dryRun {
      return;
    }
    calls := calls + [KickBatch.Message(telegramId, telegram.message(i))];
  }

  /** After `n` candidates the job is at store `s` with `calls` made, on the way to the batch's outcome. */
  ghost predicate OnTheWay(batch: KickBatch.Outcome, s: Store, listed: seq<Subscription>, settings: Settings,
                           telegram: Telegram, now: int, candidates: seq<nat>, n: nat, calls: seq<Call>)
    requires |listed| == |s.subs| && InRange(candidates, |listed|) && n <= |candidates|
  {
    var rest := KickBatch.KickAll(s, listed, settings, telegram, now, candidates[n..]);
    batch.store == rest.store && batch.calls == calls + rest.calls
  }

  lemma OneFurther(batch: KickBatch.Outcome, s: Store, listed: seq<Subscription>, settings: Settings,
                   telegram: Telegram, now: int, candidates: seq<nat>, n: nat, calls: seq<Call>)
    requires |listed| == |s.subs| && InRange(candidates, |listed|) && n < |candidates|
    requires OnTheWay(batch, s, listed, settings, telegram, now, candidates, n, calls)
    ensures var one := KickBatch.KickOne(s, listed[candidates[n]].status, settings, telegram, now, candidates[n]);
            OnTheWay(batch, one.store, listed, settings, telegram, now, candidates, n + 1, calls + one.calls)
  {
    assert candidates[n..][1..] == candidates[n + 1..];
  }

  /** The loop over the candidates. */
  method KickCandidates(db: Database, listed: seq<Subscription>, settings: Settings, telegram: Telegram, now: int,
                        candidates: seq<nat>)
      returns (calls: seq<Call>)
    requires |listed| == |db.subs| && InRange(candidates, |listed|)
    modifies db`subs
    ensures KickBatch.Outcome(db.View(now).store, calls) ==
            KickBatch.KickAll(old(db.View(now)).store, listed, settings, telegram, now, candidates)
  {
    calls := [];
    ghost var batch := KickBatch.KickAll(db.View(now).store, listed, settings, telegram, now, candidates);
    assert candidates[0..] == candidates;
    for n := 0 to |candidates|
      invariant |db.subs| == |listed|
      invariant OnTheWay(batch, db.View(now).store, listed, settings, telegram, now, candidates, n, calls)
    {
      var i := candidates[n];
      OneFurther(batch, db.View(now).store, listed, settings, telegram, now, candidates, n, calls);
      var more := KickOne(db, listed[i].status, settings, telegram, now, i);
      calls := calls + more;
    }
    assert calls + [] == calls;
  }

  /** One run of the job: exactly the expired live rows end up KICKED, and Telegram hears about each as
      decided from the store the run started with. `run` is the same work as a run of the ledger. */
  method RunAutoKick(db: Database, settings: Settings, telegram: Telegram, now: int)
      returns (candidates: seq<nat>, calls: seq<Call>, ghost run: seq<Event>)
    modifies db`subs, db`jobs
    ensures ListsExpired(old(db.subs), now, candidates)
    ensures db.subs == KickBatch.AllKicked(old(db.subs), now)
    ensures calls == KickBatch.AllCalls(old(db.View(now)).store, settings, telegram, now, candidates)
    ensures KickBatch.InTurn(calls)
    ensures forall call :: call in calls ==>
              KickBatch.ClosesUnserved(old(db.View(now)).store, now, call.telegramId)
    ensures forall id :: KickBatch.Lookup(id) in calls <==>
              settings.channel && KickBatch.ClosesUnserved(old(db.View(now)).store, now, id)
    ensures Legal(old(db.View(now)), run) && db.View(now) == Run(old(db.View(now)), run)
  {
    candidates := db.ListExpired(now);
    ghost var w := db.View(now);
    calls := KickCandidates(db, db.subs, settings, telegram, now, candidates);
    KickBatch.BatchClosesExactlyTheExpired(w.store, settings, telegram, now, candidates);
    KickBatch.CallsConcernTheUnserved(w.store, settings, telegram, now, candidates);
    KickBatch.AllCallsInTurn(w.store, settings, telegram, now, candidates);
    run := KickRace.LeftAloneItIsTheBatch(w, settings, telegram, candidates);
    db.jobs := Run(w, run).jobs;
  }
}
