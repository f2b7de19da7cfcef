/** One run of the removal job at a fixed instant: which rows it closes and whom it removes from the channel. */
module KickBatch {
  import opened Options
  import opened StateMachine
  import opened Rows
  import opened Ledger
  import opened Invariants
  import opened PaidTime

  /** Whether a channel is configured, and whether side effects are only logged. */
  datatype Settings = Settings(channel: bool, dryRun: bool)

  /** Whether a call took effect, and whether the job was told so: a reply can be lost. */
  datatype Answer = Answer(applied: bool, reported: bool)

  /** How Telegram answers while a candidate row is processed. `admin` is None when the lookup itself fails. */
  datatype Telegram = Telegram(admin: nat -> Option<bool>, ban: nat -> Answer, unban: nat -> Answer,
                               message: nat -> Answer)

  datatype Call =
    | Lookup(telegramId: int)
    | Ban(telegramId: int, answer: Answer)
    | Unban(telegramId: int, answer: Answer)
    | Message(telegramId: int, answer: Answer)

  /** The status reached so far, and whether every hop so far was allowed. */
  datatype Progress = Progress(status: Status, allowed: bool)

  function HopTo(p: Progress, to: Status): Progress {
    if p.allowed && CanTransition(p.status, to) then Progress(to, true) else p.(allowed := false)
  }

  /** One valid hop at a time to KICKED, planned from the status the row was listed with.
      Hops made before one is refused stay. */
  function AdvanceToKicked(status: Status, listed: Status): Progress {
    var start := Progress(status, true);
    var first := if listed == ACTIVE then HopTo(start, EXPIRING) else start;
    var second := if IsLive(listed) then HopTo(first, EXPIRED) else first;
    HopTo(second, KICKED)
  }

  /** Uninterrupted, the walk of a row listed live succeeds exactly when the row still has the status
      it was listed with, and otherwise leaves it alone. */
  lemma WalkIsAllOrNothing(status: Status, listed: Status)
    requires IsLive(listed)
    ensures AdvanceToKicked(status, listed) ==
            if status == listed then Progress(KICKED, true) else Progress(status, false)
  {
  }

  function RemovalCalls(settings: Settings, telegram: Telegram, i: nat, telegramId: int): seq<Call> {
    if !settings.channel then []
    else
      [Lookup(telegramId)]
      + (if telegram.admin(i) == Some(true) || settings.dryRun then []
         else [Ban(telegramId, telegram.ban(i))]
              + (if telegram.ban(i).reported then [Unban(telegramId, telegram.unban(i))] else []))
  }

  /** What the job says to Telegram about candidate `i` when the store is `s`. */
  function CallsFor(s: Store, settings: Settings, telegram: Telegram, now: int, i: nat): seq<Call>
    requires i < |s.subs|
  {
    var user := s.subs[i].user;
    if user >= |s.users| || AccessSeen(s.subs, user, now) then []
    else
      RemovalCalls(settings, telegram, i, s.users[user])
      + (if settings.dryRun then [] else [Message(s.users[user], telegram.message(i))])
  }

  datatype Outcome = Outcome(store: Store, calls: seq<Call>)

  /** One candidate: close the row hop by hop, then decide about Telegram in the store that results. */
  function KickOne(s: Store, listed: Status, settings: Settings, telegram: Telegram, now: int, i: nat): Outcome
    requires i < |s.subs|
  {
    var progress := AdvanceToKicked(s.subs[i].status, listed);
    var s' := s.(subs := s.subs[i := s.subs[i].(status := progress.status)]);
    Outcome(s', if progress.allowed then CallsFor(s', settings, telegram, now, i) else [])
  }

  /** The candidates in the given order; `listed` is the table as the candidate query saw it. */
  function KickAll(s: Store, listed: seq<Subscription>, settings: Settings, telegram: Telegram, now: int,
                   candidates: seq<nat>): Outcome
    requires |listed| == |s.subs|
    requires InRange(candidates, |listed|)
    decreases |candidates|
  {
    if candidates == [] then Outcome(s, [])
    else
      var i := candidates[0];
      var first := KickOne(s, listed[i].status, settings, telegram, now, i);
      var rest := KickAll(first.store, listed, settings, telegram, now, candidates[1..]);
      Outcome(rest.store, first.calls + rest.calls)
  }

  /** Exactly the expired live rows are KICKED. */
  function AllKicked(subs: seq<Subscription>, now: int): (r: seq<Subscription>)
    ensures |r| == |subs|
  {
    seq(|subs|, i requires 0 <= i < |subs| =>
      if Expired(subs[i], now) then subs[i].(status := KICKED) else subs[i])
  }

  function AllCalls(s: Store, settings: Settings, telegram: Telegram, now: int, candidates: seq<nat>): seq<Call>
    requires InRange(candidates, |s.subs|)
  {
    if candidates == [] then []
    else CallsFor(s, settings, telegram, now, candidates[0]) + AllCalls(s, settings, telegram, now, candidates[1..])
  }

  // ----- the batch in closed form -----

  /** `s` is `s0` with some expired rows closed: nobody's access beyond now differs. */
  ghost predicate PartlyKicked(s0: Store, s: Store, now: int) {
    && s.users == s0.users && s.payments == s0.payments && |s.subs| == |s0.subs|
    && forall i :: 0 <= i < |s.subs| ==>
         s.subs[i] == s0.subs[i] || (Expired(s0.subs[i], now) && s.subs[i] == s0.subs[i].(status := KICKED))
  }

  lemma SameLiveBeyond(s0: Store, s: Store, now: int, user: nat)
    requires PartlyKicked(s0, s, now)
    ensures LiveBeyond(s.subs, user, now) <==> LiveBeyond(s0.subs, user, now)
  {
    if LiveBeyond(s0.subs, user, now) {
      var j: nat :| j < |s0.subs| && LiveRowOf(s0.subs, user, j) && s0.subs[j].expiresAt.Some?
                    && s0.subs[j].expiresAt.value > now;
      assert LiveRowOf(s.subs, user, j);
    }
    if LiveBeyond(s.subs, user, now) {
      var j: nat :| j < |s.subs| && LiveRowOf(s.subs, user, j) && s.subs[j].expiresAt.Some?
                    && s.subs[j].expiresAt.value > now;
      assert LiveRowOf(s0.subs, user, j);
    }
  }

  lemma SameAccess(s0: Store, s: Store, now: int, user: nat)
    requires PartlyKicked(s0, s, now)
    ensures AccessSeen(s.subs, user, now) <==> AccessSeen(s0.subs, user, now)
  {
    SameLiveBeyond(s0, s, now, user);
    forall j: nat | j < |s.subs|
      ensures LiveRowOf(s.subs, user, j) && s.subs[j].expiresAt.None? <==>
              LiveRowOf(s0.subs, user, j) && s0.subs[j].expiresAt.None?
    {
    }
  }

  /** One candidate, in a store where others may already be closed: the row is closed, and the calls are those
      decided from the store the run started with. */
  lemma KickOneInClosedForm(s0: Store, s: Store, settings: Settings, telegram: Telegram, now: int, i: nat)
    requires PartlyKicked(s0, s, now)
    requires i < |s0.subs| && Expired(s0.subs[i], now) && s.subs[i] == s0.subs[i]
    ensures var one := KickOne(s, s0.subs[i].status, settings, telegram, now, i);
            && PartlyKicked(s0, one.store, now)
            && one.store.subs == s.subs[i := s0.subs[i].(status := KICKED)]
            && one.calls == CallsFor(s0, settings, telegram, now, i)
  {
    var one := KickOne(s, s0.subs[i].status, settings, telegram, now, i);
    SameAccess(s0, one.store, now, s0.subs[i].user);
  }

  /** Each candidate's decision depends only on the store the job started from, not on the candidates before it. */
  lemma {:induction false} KickAllInClosedForm(s0: Store, s: Store, settings: Settings, telegram: Telegram, now: int,
                                               candidates: seq<nat>)
    requires PartlyKicked(s0, s, now)
    requires forall a, b :: 0 <= a < b < |candidates| ==> candidates[a] != candidates[b]
    requires InRange(candidates, |s0.subs|)
    requires forall a :: 0 <= a < |candidates| ==>
               Expired(s0.subs[candidates[a]], now) && s.subs[candidates[a]] == s0.subs[candidates[a]]
    ensures var r := KickAll(s, s0.subs, settings, telegram, now, candidates);
            && PartlyKicked(s0, r.store, now)
            && r.calls == AllCalls(s0, settings, telegram, now, candidates)
            && forall i :: 0 <= i < |s.subs| ==>
                 r.store.subs[i] == if i in candidates then s0.subs[i].(status := KICKED) else s.subs[i]
    decreases |candidates|
  {
    if candidates != [] {
      var i, rest := candidates[0], candidates[1..];
      KickOneInClosedForm(s0, s, settings, telegram, now, i);
      var one := KickOne(s, s0.subs[i].status, settings, telegram, now, i);
      assert forall j :: j in candidates <==> j == i || j in rest;
      KickAllInClosedForm(s0, one.store, settings, telegram, now, rest);
    }
  }

  /** A run closes exactly the live rows past their expiry, whatever the configuration and Telegram's answers,
      leaves none behind, and a second run at the same instant finds nothing to do. */
  lemma BatchClosesExactlyTheExpired(s: Store, settings: Settings, telegram: Telegram, now: int, candidates: seq<nat>)
    requires ListsExpired(s.subs, now, candidates)
    ensures var r := KickAll(s, s.subs, settings, telegram, now, candidates);
            && r.store == s.(subs := AllKicked(s.subs, now))
            && r.calls == AllCalls(s, settings, telegram, now, candidates)
            && ListsExpired(r.store.subs, now, [])
  {
    KickAllInClosedForm(s, s, settings, telegram, now, candidates);
  }

  lemma KickOneClosesRow(s: Store, settings: Settings, telegram: Telegram, now: int, i: nat)
    requires i < |s.subs| && IsLive(s.subs[i].status)
    ensures KickOne(s, s.subs[i].status, settings, telegram, now, i).store ==
            s.(subs := s.subs[i := s.subs[i].(status := KICKED)])
  {
  }

  // ----- who is removed -----

  /** The job removes this user from the channel for candidate `i`. */
  ghost predicate Removes(s: Store, settings: Settings, telegram: Telegram, now: int, i: nat)
    requires i < |s.subs|
  {
    && s.subs[i].user < |s.users| && !AccessSeen(s.subs, s.subs[i].user, now)
    && settings.channel && !settings.dryRun && telegram.admin(i) != Some(true)
  }

  /** The job tells this user that access is closed. */
  ghost predicate Notifies(s: Store, settings: Settings, now: int, i: nat)
    requires i < |s.subs|
  {
    !settings.dryRun && s.subs[i].user < |s.users| && !AccessSeen(s.subs, s.subs[i].user, now)
  }

  /** A subscriber is banned in a run exactly when a candidate row of theirs is closed, they have no other access
      beyond now, they are not an administrator, a channel is configured, and it is not a dry run. */
  lemma {:induction false} BannedExactlyWhen(s: Store, settings: Settings, telegram: Telegram, now: int,
                                             candidates: seq<nat>, telegramId: int)
    requires InRange(candidates, |s.subs|)
    ensures (exists answer :: Ban(telegramId, answer) in AllCalls(s, settings, telegram, now, candidates)) <==>
            (exists a :: 0 <= a < |candidates| && Removes(s, settings, telegram, now, candidates[a])
                         && s.users[s.subs[candidates[a]].user] == telegramId)
    ensures (exists answer :: Message(telegramId, answer) in AllCalls(s, settings, telegram, now, candidates)) <==>
            (exists a :: 0 <= a < |candidates| && Notifies(s, settings, now, candidates[a])
                         && s.users[s.subs[candidates[a]].user] == telegramId)
    decreases |candidates|
  {
    if candidates != [] {
      var i, rest := candidates[0], candidates[1..];
      var first := CallsFor(s, settings, telegram, now, i);
      BannedExactlyWhen(s, settings, telegram, now, rest, telegramId);
      assert AllCalls(s, settings, telegram, now, candidates) == first + AllCalls(s, settings, telegram, now, rest);
      BannedForOne(s, settings, telegram, now, i, telegramId);
      assert forall a :: 0 <= a < |rest| ==> rest[a] == candidates[a + 1];
      assert forall a :: 1 <= a < |candidates| ==> candidates[a] == rest[a - 1];
    }
  }

  lemma BannedForOne(s: Store, settings: Settings, telegram: Telegram, now: int, i: nat, telegramId: int)
    requires i < |s.subs|
    ensures var calls := CallsFor(s, settings, telegram, now, i);
            && ((exists answer :: Ban(telegramId, answer) in calls) <==>
                Removes(s, settings, telegram, now, i) && s.users[s.subs[i].user] == telegramId)
            && ((exists answer :: Message(telegramId, answer) in calls) <==>
                Notifies(s, settings, now, i) && s.users[s.subs[i].user] == telegramId)
  {
    var calls := CallsFor(s, settings, telegram, now, i);
    if Removes(s, settings, telegram, now, i) {
      assert calls[1] == Ban(s.users[s.subs[i].user], telegram.ban(i));
    }
    if Notifies(s, settings, now, i) {
      assert calls[|calls| - 1] == Message(s.users[s.subs[i].user], telegram.message(i));
    }
  }

  /** The user owns a row that the job closes, and the lookup made for it does not show an administrator. */
  ghost predicate Candidate(s: Store, telegram: Telegram, now: int, user: nat) {
    exists i: nat :: i < |s.subs| && s.subs[i].user == user && Expired(s.subs[i], now)
                     && telegram.admin(i) != Some(true)
  }

  lemma BannedIfCandidate(s: Store, settings: Settings, telegram: Telegram, now: int, candidates: seq<nat>, user: nat)
    requires UsersDistinct(s) && (forall i :: 0 <= i < |s.subs| ==> s.subs[i].user < |s.users|)
    requires ListsExpired(s.subs, now, candidates) && user < |s.users| && settings.channel && !settings.dryRun
    ensures (exists answer :: Ban(s.users[user], answer) in AllCalls(s, settings, telegram, now, candidates)) <==>
            Candidate(s, telegram, now, user) && !AccessSeen(s.subs, user, now)
  {
    BannedExactlyWhen(s, settings, telegram, now, candidates, s.users[user]);
    if Candidate(s, telegram, now, user) && !AccessSeen(s.subs, user, now) {
      var i: nat :| i < |s.subs| && s.subs[i].user == user && Expired(s.subs[i], now)
                    && telegram.admin(i) != Some(true);
      var a :| 0 <= a < |candidates| && candidates[a] == i;
      assert Removes(s, settings, telegram, now, candidates[a]);
    }
  }

  /** With side effects on, in every reachable world, the job bans a user exactly when they own an expired live row,
      the lookup does not show an administrator, and they are not paid up, or all they paid for ahead is on a row
      that an earlier run closed although it had been renewed. */
  lemma OnlyTheUnpaidAreRemoved(w: World, settings: Settings, telegram: Telegram, candidates: seq<nat>, user: nat)
    requires Inv(w) && RowsSound(w) && ListsExpired(w.store.subs, w.now, candidates) && user < |w.store.users|
    requires settings.channel && !settings.dryRun
    ensures (exists answer ::
               Ban(w.store.users[user], answer) in AllCalls(w.store, settings, telegram, w.now, candidates)) <==>
            Candidate(w.store, telegram, w.now, user)
            && (!PaidUp(w, user) || (WalkedAhead(w, user) && !LiveBeyond(w.store.subs, user, w.now)))
  {
    BannedIfCandidate(w.store, settings, telegram, w.now, candidates, user);
    AccessSeenExactly(w, user);
    PaidUpExactly(w, user);
  }

  // ----- whom the calls concern, and in which order -----

  /** A row of the member with this telegram id is closed, and nothing else gives them access beyond now. */
  ghost predicate ClosesUnserved(s: Store, now: int, telegramId: int) {
    exists i: nat | i < |s.subs| :: Expired(s.subs[i], now) && Unserved(s, now, i, telegramId)
  }

  ghost predicate Unserved(s: Store, now: int, i: nat, telegramId: int)
    requires i < |s.subs|
  {
    && s.subs[i].user < |s.users| && s.users[s.subs[i].user] == telegramId
    && !AccessSeen(s.subs, s.subs[i].user, now)
  }

  lemma CallConcerns(s: Store, settings: Settings, telegram: Telegram, now: int, i: nat, call: Call)
    requires i < |s.subs| && call in CallsFor(s, settings, telegram, now, i)
    ensures Unserved(s, now, i, call.telegramId)
  {
  }

  lemma {:induction false} CallsConcern(s: Store, settings: Settings, telegram: Telegram, now: int,
                                        candidates: seq<nat>, call: Call)
    requires InRange(candidates, |s.subs|) && call in AllCalls(s, settings, telegram, now, candidates)
    ensures exists a :: 0 <= a < |candidates| && Unserved(s, now, candidates[a], call.telegramId)
    decreases |candidates|
  {
    var i, rest := candidates[0], candidates[1..];
    if call in CallsFor(s, settings, telegram, now, i) {
      CallConcerns(s, settings, telegram, now, i, call);
      assert candidates[0] == i;
    } else {
      CallsConcern(s, settings, telegram, now, rest, call);
      var a :| 0 <= a < |rest| && Unserved(s, now, rest[a], call.telegramId);
      assert candidates[a + 1] == rest[a];
    }
  }

  lemma {:induction false} LooksUp(s: Store, settings: Settings, telegram: Telegram, now: int, candidates: seq<nat>,
                                   a: nat, telegramId: int)
    requires InRange(candidates, |s.subs|) && a < |candidates| && settings.channel
    requires Unserved(s, now, candidates[a], telegramId)
    ensures Lookup(telegramId) in AllCalls(s, settings, telegram, now, candidates)
    decreases |candidates|
  {
    if a == 0 {
      assert CallsFor(s, settings, telegram, now, candidates[0])[0] == Lookup(telegramId);
    } else {
      LooksUp(s, settings, telegram, now, candidates[1..], a - 1, telegramId);
    }
  }

  lemma {:induction false} NoChannelNoLookup(s: Store, settings: Settings, telegram: Telegram, now: int,
                                             candidates: seq<nat>, telegramId: int)
    requires InRange(candidates, |s.subs|) && !settings.channel
    ensures Lookup(telegramId) !in AllCalls(s, settings, telegram, now, candidates)
    decreases |candidates|
  {
    if candidates != [] {
      NoChannelNoLookup(s, settings, telegram, now, candidates[1..], telegramId);
    }
  }

  /** Every call of a run concerns a member one of whose rows is closed while nothing else gives them access; and with a
      channel configured each such member is looked up. */
  lemma CallsConcernTheUnserved(s: Store, settings: Settings, telegram: Telegram, now: int, candidates: seq<nat>)
    requires ListsExpired(s.subs, now, candidates)
    ensures forall call :: call in AllCalls(s, settings, telegram, now, candidates) ==>
              ClosesUnserved(s, now, call.telegramId)
    ensures forall id :: Lookup(id) in AllCalls(s, settings, telegram, now, candidates) <==>
              settings.channel && ClosesUnserved(s, now, id)
  {
    var calls := AllCalls(s, settings, telegram, now, candidates);
    forall call | call in calls ensures ClosesUnserved(s, now, call.telegramId) {
      CallsConcern(s, settings, telegram, now, candidates, call);
      var a :| 0 <= a < |candidates| && Unserved(s, now, candidates[a], call.telegramId);
      assert Expired(s.subs[candidates[a]], now);
    }
    forall id ensures Lookup(id) in calls <==> settings.channel && ClosesUnserved(s, now, id) {
      assert Lookup(id).telegramId == id;
      if !settings.channel {
        NoChannelNoLookup(s, settings, telegram, now, candidates, id);
      } else if ClosesUnserved(s, now, id) {
        var i: nat :| i < |s.subs| && Expired(s.subs[i], now) && Unserved(s, now, i, id);
        var a: nat :| a < |candidates| && candidates[a] == i;
        LooksUp(s, settings, telegram, now, candidates, a, id);
      }
    }
  }

  /** Each ban comes directly after a lookup of the same member, each unban directly after a ban of theirs that was
      reported as done, and each ban so reported directly before such an unban. */
  ghost predicate InTurn(calls: seq<Call>) {
    && (forall k :: 0 <= k < |calls| && calls[k].Ban? ==>
          0 < k && calls[k - 1] == Lookup(calls[k].telegramId))
    && (forall k :: 0 <= k < |calls| && calls[k].Unban? ==>
          0 < k && calls[k - 1].Ban? && calls[k - 1].telegramId == calls[k].telegramId && calls[k - 1].answer.reported)
    && (forall k :: 0 <= k < |calls| && calls[k].Ban? && calls[k].answer.reported ==>
          k + 1 < |calls| && calls[k + 1].Unban? && calls[k + 1].telegramId == calls[k].telegramId)
  }

  lemma InTurnOverBoth(a: seq<Call>, b: seq<Call>)
    requires InTurn(a) && InTurn(b)
    ensures InTurn(a + b)
  {
    var both, n := a + b, |a|;
    assert forall k :: 0 <= k < n ==> both[k] == a[k];
    assert forall k :: n <= k < |both| ==> both[k] == b[k - n];
  }

  lemma RemovalInTurn(settings: Settings, telegram: Telegram, i: nat, telegramId: int)
    ensures InTurn(RemovalCalls(settings, telegram, i, telegramId))
  {
  }

  lemma CallsInTurn(s: Store, settings: Settings, telegram: Telegram, now: int, i: nat)
    requires i < |s.subs|
    ensures InTurn(CallsFor(s, settings, telegram, now, i))
  {
    var user := s.subs[i].user;
    if user < |s.users| {
      RemovalInTurn(settings, telegram, i, s.users[user]);
      InTurnOverBoth(RemovalCalls(settings, telegram, i, s.users[user]),
                     if settings.dryRun then [] else [Message(s.users[user], telegram.message(i))]);
    }
  }

  lemma {:induction false} AllCallsInTurn(s: Store, settings: Settings, telegram: Telegram, now: int,
                                          candidates: seq<nat>)
    requires InRange(candidates, |s.subs|)
    ensures InTurn(AllCalls(s, settings, telegram, now, candidates))
    decreases |candidates|
  {
    if candidates != [] {
      CallsInTurn(s, settings, telegram, now, candidates[0]);
      AllCallsInTurn(s, settings, telegram, now, candidates[1..]);
      InTurnOverBoth(CallsFor(s, settings, telegram, now, candidates[0]),
                     AllCalls(s, settings, telegram, now, candidates[1..]));
    }
  }

  // ----- independence of order -----

  lemma {:induction false} CallsOfBoth(s: Store, settings: Settings, telegram: Telegram, now: int,
                                       a: seq<nat>, b: seq<nat>)
    requires InRange(a, |s.subs|) && InRange(b, |s.subs|)
    ensures AllCalls(s, settings, telegram, now, a + b) ==
            AllCalls(s, settings, telegram, now, a) + AllCalls(s, settings, telegram, now, b)
    decreases |a|
  {
    if a == [] {
      assert a + b == b;
    } else {
      assert (a + b)[0] == a[0] && (a + b)[1..] == a[1..] + b;
      CallsOfBoth(s, settings, telegram, now, a[1..], b);
    }
  }

  lemma CallsWithout(s: Store, settings: Settings, telegram: Telegram, now: int, a: seq<nat>, i: nat, b: seq<nat>)
    requires InRange(a, |s.subs|) && i < |s.subs| && InRange(b, |s.subs|)
    ensures multiset(AllCalls(s, settings, telegram, now, a + ([i] + b))) ==
            multiset(CallsFor(s, settings, telegram, now, i)) + multiset(AllCalls(s, settings, telegram, now, a + b))
  {
    CallsOfBoth(s, settings, telegram, now, a, [i] + b);
    CallsOfBoth(s, settings, telegram, now, a, b);
    assert ([i] + b)[1..] == b;
  }

  lemma CallsOfFirst(s: Store, settings: Settings, telegram: Telegram, now: int, candidates: seq<nat>)
    requires candidates != [] && InRange(candidates, |s.subs|)
    ensures multiset(AllCalls(s, settings, telegram, now, candidates)) ==
            multiset(CallsFor(s, settings, telegram, now, candidates[0]))
            + multiset(AllCalls(s, settings, telegram, now, candidates[1..]))
  {
  }

  lemma SameRange(a: seq<nat>, b: seq<nat>, n: nat)
    requires multiset(a) == multiset(b) && InRange(a, n)
    ensures InRange(b, n)
  {
    forall k | 0 <= k < |b| ensures b[k] < n {
      assert b[k] in multiset(b);
      assert b[k] in multiset(a);
    }
  }

  /** Taking the same element out of two sequences with the same elements. */
  lemma SameWithout(c: seq<nat>, x: nat, a: seq<nat>, b: seq<nat>)
    requires multiset([x] + c) == multiset(a + ([x] + b))
    ensures multiset(c) == multiset(a + b)
  {
    assert multiset([x] + c) == multiset{x} + multiset(c);
    assert multiset(a + ([x] + b)) == multiset(a) + (multiset{x} + multiset(b));
    assert multiset(c) == multiset([x] + c) - multiset{x};
  }

  /** Where the first element of one sequence is in another with the same elements. */
  lemma Elsewhere(c: seq<nat>, d: seq<nat>) returns (a: seq<nat>, b: seq<nat>)
    requires c != [] && multiset(c) == multiset(d)
    ensures d == a + ([c[0]] + b) && multiset(c[1..]) == multiset(a + b)
  {
    assert c[0] in multiset(c);
    assert c[0] in multiset(d);
    var k :| 0 <= k < |d| && d[k] == c[0];
    a, b := d[..k], d[k + 1..];
    assert d == a + ([c[0]] + b);
    assert c == [c[0]] + c[1..];
    SameWithout(c[1..], c[0], a, b);
  }

  /** The candidates may come in any order: the same calls are made, each as often. */
  lemma {:induction false} OrderDoesNotMatter(s: Store, settings: Settings, telegram: Telegram, now: int,
                                              candidates: seq<nat>, reordered: seq<nat>)
    requires InRange(candidates, |s.subs|)
    requires multiset(candidates) == multiset(reordered)
    ensures InRange(reordered, |s.subs|)
    ensures multiset(AllCalls(s, settings, telegram, now, candidates)) ==
            multiset(AllCalls(s, settings, telegram, now, reordered))
    decreases |candidates|
  {
    SameRange(candidates, reordered, |s.subs|);
    if candidates == [] {
      assert |multiset(reordered)| == 0;
    } else {
      var a, b := Elsewhere(candidates, reordered);
      PartsInRange(a, candidates[0], b, |s.subs|);
      OrderDoesNotMatter(s, settings, telegram, now, candidates[1..], a + b);
      CallsOfFirst(s, settings, telegram, now, candidates);
      CallsWithout(s, settings, telegram, now, a, candidates[0], b);
    }
  }

  lemma PartsInRange(a: seq<nat>, x: nat, b: seq<nat>, n: nat)
    requires InRange(a + ([x] + b), n)
    ensures InRange(a, n) && x < n && InRange(b, n)
  {
    var all := a + ([x] + b);
    assert forall k :: 0 <= k < |a| ==> all[k] == a[k];
    assert all[|a|] == x;
    assert forall k :: 0 <= k < |b| ==> all[|a| + 1 + k] == b[k];
  }

  // ----- noninterference -----

  /** Runs that differ in configuration, protection and Telegram's answers, even over rows that were changed
      since they were listed, end in the same store. */
  lemma {:induction false} StoreIgnoresTelegram(s: Store, listed: seq<Subscription>, now: int, candidates: seq<nat>,
                                                settings: Settings, telegram: Telegram,
                                                settings': Settings, telegram': Telegram)
    requires |listed| == |s.subs|
    requires InRange(candidates, |listed|)
    ensures KickAll(s, listed, settings, telegram, now, candidates).store ==
            KickAll(s, listed, settings', telegram', now, candidates).store
    decreases |candidates|
  {
    if candidates != [] {
      var i := candidates[0];
      var first := KickOne(s, listed[i].status, settings, telegram, now, i);
      StoreIgnoresTelegram(first.store, listed, now, candidates[1..], settings, telegram, settings', telegram');
    }
  }

  /** A dry run only ever looks members up. */
  lemma {:induction false} DryRunOnlyLooks(s: Store, listed: seq<Subscription>, now: int, candidates: seq<nat>,
                                           settings: Settings, telegram: Telegram, call: Call)
    requires |listed| == |s.subs|
    requires InRange(candidates, |listed|)
    requires settings.dryRun
    requires call in KickAll(s, listed, settings, telegram, now, candidates).calls
    ensures call.Lookup?
    decreases |candidates|
  {
    var i := candidates[0];
    var first := KickOne(s, listed[i].status, settings, telegram, now, i);
    if call !in first.calls {
      DryRunOnlyLooks(first.store, listed, now, candidates[1..], settings, telegram, call);
    }
  }

  // ----- who stays banned -----

  function BannedAfterOne(before: set<int>, call: Call): set<int> {
    match call
    case Ban(telegramId, answer) => if answer.applied then before + {telegramId} else before
    case Unban(telegramId, answer) => if answer.applied then before - {telegramId} else before
    case Lookup(_) => before
    case Message(_, _) => before
  }

  /** Who is banned after the calls, if `before` were banned before. */
  function BannedAfter(before: set<int>, calls: seq<Call>): set<int>
    decreases |calls|
  {
    if calls == [] then before else BannedAfter(BannedAfterOne(before, calls[0]), calls[1..])
  }

  lemma {:induction false} BannedAfterBoth(before: set<int>, a: seq<Call>, b: seq<Call>)
    ensures BannedAfter(before, a + b) == BannedAfter(BannedAfter(before, a), b)
    decreases |a|
  {
    if a == [] {
      assert a + b == b;
    } else {
      assert (a + b)[1..] == a[1..] + b;
      BannedAfterBoth(BannedAfterOne(before, a[0]), a[1..], b);
    }
  }

  lemma ShortHistory(before: set<int>, calls: seq<Call>)
    requires |calls| <= 4
    decreases |calls|
    ensures |calls| == 0 ==> BannedAfter(before, calls) == before
    ensures |calls| == 1 ==> BannedAfter(before, calls) == BannedAfterOne(before, calls[0])
    ensures |calls| == 2 ==> BannedAfter(before, calls) == BannedAfterOne(BannedAfterOne(before, calls[0]), calls[1])
    ensures |calls| == 3 ==> BannedAfter(before, calls) ==
                             BannedAfterOne(BannedAfterOne(BannedAfterOne(before, calls[0]), calls[1]), calls[2])
    ensures |calls| == 4 ==> BannedAfter(before, calls) ==
                             BannedAfterOne(BannedAfterOne(BannedAfterOne(BannedAfterOne(before, calls[0]), calls[1]),
                                                           calls[2]), calls[3])
  {
    if |calls| > 1 {
      ShortHistory(BannedAfterOne(before, calls[0]), calls[1..]);
    }
  }

  /** The removal for candidate `i` bans the subscriber, and no unban takes effect: either the ban was reported as
      failed, so that the unban was never asked for, or the unban did not work. */
  ghost predicate Stuck(s: Store, settings: Settings, telegram: Telegram, now: int, i: nat, telegramId: int)
    requires i < |s.subs|
  {
    && Removes(s, settings, telegram, now, i) && s.users[s.subs[i].user] == telegramId
    && telegram.ban(i).applied && !(telegram.ban(i).reported && telegram.unban(i).applied)
  }

  /** The removal for candidate `i` goes on to an unban of the subscriber, which takes effect. */
  ghost predicate Cleared(s: Store, settings: Settings, telegram: Telegram, now: int, i: nat, telegramId: int)
    requires i < |s.subs|
  {
    && Removes(s, settings, telegram, now, i) && s.users[s.subs[i].user] == telegramId
    && telegram.ban(i).reported && telegram.unban(i).applied
  }

  /** One removal bans its subscriber, clears them, or changes nothing. */
  lemma OneRemoval(s: Store, settings: Settings, telegram: Telegram, now: int, i: nat, before: set<int>)
    requires i < |s.subs| && s.subs[i].user < |s.users|
    ensures var id := s.users[s.subs[i].user];
            BannedAfter(before, CallsFor(s, settings, telegram, now, i)) ==
            if Stuck(s, settings, telegram, now, i, id) then before + {id}
            else if Cleared(s, settings, telegram, now, i, id) then before - {id}
            else before
  {
    var calls := CallsFor(s, settings, telegram, now, i);
    if Removes(s, settings, telegram, now, i) {
      var id := s.users[s.subs[i].user];
      var ban, unban := Ban(id, telegram.ban(i)), Unban(id, telegram.unban(i));
      var message := Message(id, telegram.message(i));
      if telegram.ban(i).reported {
        assert calls == [Lookup(id)] + [ban] + [unban] + [message];
        assert before + {id} - {id} == before - {id};
      } else {
        assert calls == [Lookup(id)] + [ban] + [message];
      }
    }
    ShortHistory(before, calls);
  }

  /** Some removal of the subscriber banned without unbanning, and no later one cleared it. */
  ghost predicate LeftBanned(s: Store, settings: Settings, telegram: Telegram, now: int, candidates: seq<nat>,
                             telegramId: int)
    requires InRange(candidates, |s.subs|)
  {
    exists a :: 0 <= a < |candidates| && Stuck(s, settings, telegram, now, candidates[a], telegramId)
                && forall b :: a < b < |candidates| ==>
                     !Cleared(s, settings, telegram, now, candidates[b], telegramId)
  }

  lemma LeftBannedOneMore(s: Store, settings: Settings, telegram: Telegram, now: int, candidates: seq<nat>, i: nat,
                          telegramId: int)
    requires InRange(candidates, |s.subs|) && i < |s.subs|
    ensures LeftBanned(s, settings, telegram, now, candidates + [i], telegramId) <==>
            Stuck(s, settings, telegram, now, i, telegramId)
            || (LeftBanned(s, settings, telegram, now, candidates, telegramId)
                && !Cleared(s, settings, telegram, now, i, telegramId))
  {
    var more, n := candidates + [i], |candidates|;
    assert more[n] == i;
    if LeftBanned(s, settings, telegram, now, more, telegramId) && !Stuck(s, settings, telegram, now, i, telegramId) {
      var a :| 0 <= a < |more| && Stuck(s, settings, telegram, now, more[a], telegramId)
               && forall b :: a < b < |more| ==> !Cleared(s, settings, telegram, now, more[b], telegramId);
      assert a < n && more[a] == candidates[a];
      assert forall b :: a < b < n ==> more[b] == candidates[b];
    }
    if LeftBanned(s, settings, telegram, now, candidates, telegramId)
       && !Cleared(s, settings, telegram, now, i, telegramId) {
      var a :| 0 <= a < n && Stuck(s, settings, telegram, now, candidates[a], telegramId)
               && forall b :: a < b < n ==> !Cleared(s, settings, telegram, now, candidates[b], telegramId);
      assert more[a] == candidates[a];
      assert forall b :: a < b < n ==> more[b] == candidates[b];
    }
  }

  /** After a run a subscriber is left banned exactly when some removal of theirs banned them without an unban that
      took effect, and no later one cleared them. */
  lemma {:induction false} LeftBannedExactlyWhen(s: Store, settings: Settings, telegram: Telegram, now: int,
                                                 candidates: seq<nat>, telegramId: int)
    requires InRange(candidates, |s.subs|)
    ensures telegramId in BannedAfter({}, AllCalls(s, settings, telegram, now, candidates)) <==>
            LeftBanned(s, settings, telegram, now, candidates, telegramId)
    decreases |candidates|
  {
    if candidates != [] {
      var n := |candidates| - 1;
      var before, i := candidates[..n], candidates[n];
      assert candidates == before + [i];
      LeftBannedExactlyWhen(s, settings, telegram, now, before, telegramId);
      LeftBannedOneMore(s, settings, telegram, now, before, i, telegramId);
      CallsOfBoth(s, settings, telegram, now, before, [i]);
      var calls, last := AllCalls(s, settings, telegram, now, before), CallsFor(s, settings, telegram, now, i);
      assert AllCalls(s, settings, telegram, now, [i]) == last + [];
      assert AllCalls(s, settings, telegram, now, candidates) == calls + last;
      BannedAfterBoth({}, calls, last);
      if s.subs[i].user < |s.users| {
        OneRemoval(s, settings, telegram, now, i, BannedAfter({}, calls));
      }
    }
  }

  /** An expired subscriber is left banned when the unban call fails, and also when the ban takes effect but is reported
      as failed: then no unban is ever asked for. */
  lemma FailuresLeaveABan(lostReply: bool)
    ensures var s := Store([7], [Subscription(0, EXPIRING, Some(0), Some(1))], []);
            var ban, unban := Answer(true, !lostReply), Answer(lostReply, lostReply);
            var telegram := Telegram(_ => None, _ => ban, _ => unban, _ => Answer(true, true));
            var calls := AllCalls(s, Settings(true, false), telegram, 1, [0]);
            && ListsExpired(s.subs, 1, [0]) && 7 in BannedAfter({}, calls)
            && (lostReply ==> Unban(7, unban) !in calls)
  {
    var s := Store([7], [Subscription(0, EXPIRING, Some(0), Some(1))], []);
    var ban, unban := Answer(true, !lostReply), Answer(lostReply, lostReply);
    var telegram := Telegram(_ => None, _ => ban, _ => unban, _ => Answer(true, true));
    assert Removes(s, Settings(true, false), telegram, 1, 0);
    assert Stuck(s, Settings(true, false), telegram, 1, [0 as nat][0], 7);
    LeftBannedExactlyWhen(s, Settings(true, false), telegram, 1, [0], 7);
    var first := CallsFor(s, Settings(true, false), telegram, 1, 0);
    assert AllCalls(s, Settings(true, false), telegram, 1, [0]) == first + [];
  }
}
