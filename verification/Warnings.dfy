/** The reminder job as it runs. */
module Warnings {
  import opened Options
  import opened Clock
  import opened StateMachine
  import opened Rows
  import opened Ledger
  import opened Repositories
  import opened Reminders

  /** A reminder that went out: for which row, to whom, and the days left. */
  datatype Reminder = Reminder(row: nat, telegramId: int, days: int)

  /** One listed row: `listed` is the row as the query returned it. Yields the reminder delivered, if any;
      nothing is delivered to a user whose record is missing. */
  method WarnOne(db: Database, i: nat, listed: Subscription, now: int, delivered: bool)
      returns (sent: Option<Reminder>)
    requires i < |db.subs| && listed.expiresAt.Some? && listed.user == db.subs[i].user
    modifies db`subs, db`acts
    ensures var warning := Warn(old(db.subs)[i], listed, now, delivered && listed.user < |db.users|);
            && db.subs == old(db.subs)[i := warning.row]
            && (sent.Some? <==> warning.sent.Some?)
            && (sent.Some? ==> warning.sent == Some(sent.value.days))
    ensures sent.Some? ==>
              listed.user < |db.users| && sent.value == Reminder(i, db.users[listed.user], sent.value.days)
    ensures db.acts == old(db.acts) + (if sent.Some? then [Reminded(i, sent.value.days)] else [])
  {
    var days := DaysRemaining(listed.expiresAt.value, now);
    if !(1 <= days <= WARNING_WINDOW_DAYS) {
      return None;
    }
    var subscription := listed;
    if listed.status == ACTIVE {
      var r := db.UpdateStatus(i, EXPIRING, None);
      if r.InvalidTransition? {
        return None;
      }
      subscription := db.subs[i];
    }
    if subscription.lastWarning.Some? && subscription.lastWarning.value <= days {
      return None;
    }
    if subscription.user >= |db.users| {
      return None;
    }
    if !delivered {
      return None;
    }
    sent := Some(Reminder(i, db.users[subscription.user], days));
    var _ := db.SetLastWarningDaysLeft(i, Some(days));
    db.acts := db.acts + [Reminded(i, days)];
  }

  /** Whether the reminder for row `i` gets through. */
  ghost predicate Reaches(w: World, i: nat, delivers: nat -> bool) {
    i < |w.store.subs| && delivers(i) && w.store.subs[i].user < |w.store.users|
  }

  /** No due row has a reminder that is still to be recorded. */
  ghost predicate NoneUnrecorded(w: World) {
    forall i: nat | i < |w.store.subs| && Due(w.store.subs[i], w.now) :: !JobsAt(w.jobs, i).visit.point.AtRecord?
  }

  /** A run goes on with one more visit. */
  lemma OneMoreVisit(w: World, run: seq<Event>, i: nat, reaches: bool) returns (visit: seq<Event>)
    requires Legal(w, run)
    requires var before := Run(w, run);
             && i < |before.store.subs| && Due(before.store.subs[i], before.now)
             && !JobsAt(before.jobs, i).visit.point.AtRecord?
             && (reaches ==> before.store.subs[i].user < |before.store.users|)
    ensures Legal(Run(w, run), visit) && Legal(w, run + visit) && Run(w, run + visit) == Run(Run(w, run), visit)
    ensures var before, after := Run(w, run), Run(w, run + visit);
            var warning := Warn(before.store.subs[i], before.store.subs[i], before.now, reaches);
            OnlyRow(before, after, i, warning.row,
                    if warning.sent.Some? then [Reminded(i, warning.sent.value)] else [], Resting)
  {
    var before := Run(w, run);
    UninterruptedVisit(before, i, reaches);
    visit := VisitEvents(before.store.subs[i], i, before.now, reaches);
    RunConcat(w, run, visit);
  }

  /** What has become of row `i`, or is to become of it. */
  ghost function Outcome(w: World, delivers: nat -> bool, i: nat): Warning
    requires i < |w.store.subs|
  {
    Visited(w.store.subs[i], w.now, Reaches(w, i, delivers))
  }

  /** The reminder is one that the job sends for its row, to the row's owner. */
  ghost predicate Sends(w: World, delivers: nat -> bool, r: Reminder) {
    && r.row < |w.store.subs| && Outcome(w, delivers, r.row).sent == Some(r.days)
    && w.store.subs[r.row].user < |w.store.users| && r.telegramId == w.store.users[w.store.subs[r.row].user]
  }

  /** After visits to the rows `done`, the table is `subs` and the reminders `sent` are out. */
  ghost predicate VisitedSoFar(w: World, delivers: nat -> bool, done: seq<nat>, subs: seq<Subscription>,
                               sent: seq<Reminder>) {
    && |subs| == |w.store.subs|
    && (forall i: nat :: i < |subs| ==> subs[i] == if i in done then Outcome(w, delivers, i).row else w.store.subs[i])
    && (forall r :: r in sent <==> r.row in done && Sends(w, delivers, r))
    && OnePerRow(sent)
  }

  ghost predicate OnePerRow(sent: seq<Reminder>) {
    forall a, b :: 0 <= a < b < |sent| ==> sent[a].row != sent[b].row
  }

  lemma OneRowMore(sent: seq<Reminder>, one: Reminder)
    requires OnePerRow(sent) && forall r :: r in sent ==> r.row != one.row
    ensures OnePerRow(sent + [one])
  {
  }

  /** A row still to be visited is as it was listed. */
  lemma StillAsListed(w: World, delivers: nat -> bool, done: seq<nat>, subs: seq<Subscription>,
                      sent: seq<Reminder>, i: nat)
    requires VisitedSoFar(w, delivers, done, subs, sent) && i < |subs| && i !in done && Due(w.store.subs[i], w.now)
    ensures subs[i] == w.store.subs[i]
    ensures Warn(subs[i], w.store.subs[i], w.now, Reaches(w, i, delivers)) == Outcome(w, delivers, i)
  {
  }

  lemma VisitedOneMore(w: World, delivers: nat -> bool, done: seq<nat>, subs: seq<Subscription>,
                       sent: seq<Reminder>, i: nat, one: Option<Reminder>)
    requires VisitedSoFar(w, delivers, done, subs, sent) && i !in done && i < |subs|
    requires one.Some? <==> Outcome(w, delivers, i).sent.Some?
    requires one.Some? ==> one.value.row == i && Sends(w, delivers, one.value)
    ensures VisitedSoFar(w, delivers, done + [i], subs[i := Outcome(w, delivers, i).row],
                         if one.Some? then sent + [one.value] else sent)
  {
    if one.Some? {
      OneRowMore(sent, one.value);
    }
  }

  lemma AllVisited(w: World, delivers: nat -> bool, candidates: seq<nat>, subs: seq<Subscription>,
                   sent: seq<Reminder>)
    requires VisitedSoFar(w, delivers, candidates, subs, sent) && ListsDue(w.store.subs, w.now, candidates)
    ensures forall i: nat :: i < |subs| ==> subs[i] == Outcome(w, delivers, i).row
    ensures OnePerRow(sent) && forall r :: r in sent <==> Sends(w, delivers, r)
  {
  }

  // ----- what a run amounts to, in microseconds and table entries -----

  /** The row gives access and expires within three days of now, both ends included. */
  predicate ExpiresSoon(r: Subscription, now: int) {
    (r.status == ACTIVE || r.status == EXPIRING) && r.expiresAt.Some?
    && now <= r.expiresAt.value <= now + 259_200_000_000
  }

  /** The expiry is `days` days away, a day begun counted as a whole one, and this very instant as a day. */
  predicate DaysAway(expiresAt: int, now: int, days: int) {
    && expiresAt <= now + days * 86_400_000_000
    && (now + (days - 1) * 86_400_000_000 < expiresAt || days == 1)
  }

  /** A reminder for this many days is due to the row: it expires soon, and no reminder for as few days is on record. */
  predicate ReminderDue(r: Subscription, now: int, days: int) {
    && ExpiresSoon(r, now) && 1 <= days <= 3 && DaysAway(r.expiresAt.value, now, days)
    && (r.lastWarning.Some? ==> r.lastWarning.value > days)
  }

  /** What becomes of a row: if it expires soon it is EXPIRING, and remembers the reminder that was sent, if any. */
  predicate Becomes(before: Subscription, after: Subscription, now: int, sent: Option<int>) {
    after == before.(status := if ExpiresSoon(before, now) then EXPIRING else before.status,
                     lastWarning := if sent.Some? then sent else before.lastWarning)
  }

  lemma OutcomeInNumbers(w: World, delivers: nat -> bool, i: nat)
    requires i < |w.store.subs|
    ensures var r, outcome := w.store.subs[i], Outcome(w, delivers, i);
            && Becomes(r, outcome.row, w.now, outcome.sent)
            && forall days :: outcome.sent == Some(days) <==>
                 ReminderDue(r, w.now, days) && delivers(i) && r.user < |w.store.users|
  {
    var r, outcome := w.store.subs[i], Outcome(w, delivers, i);
    if Due(r, w.now) {
      var expiry, d := r.expiresAt.value, DaysRemaining(r.expiresAt.value, w.now);
      DaysRemainingMeaning(expiry, w.now, WARNING_WINDOW_DAYS);
      forall days ensures 1 <= days <= 3 && DaysAway(expiry, w.now, days) <==> days == d {
        OnlyDay(expiry, w.now, days);
      }
    }
  }

  lemma OnlyDay(expiresAt: int, now: int, days: int)
    requires expiresAt <= now + 259_200_000_000
    ensures 1 <= days <= 3 && DaysAway(expiresAt, now, days) <==> days == DaysRemaining(expiresAt, now)
  {
    DaysRemainingMeaning(expiresAt, now, 1);
    DaysRemainingMeaning(expiresAt, now, 2);
    DaysRemainingMeaning(expiresAt, now, 3);
  }

  /** The reminders of a run: one to the owner of each row to which one is due, if it is delivered. */
  ghost predicate RightReminders(w: World, delivers: nat -> bool, sent: seq<Reminder>) {
    && OnePerRow(sent)
    && forall r :: r in sent <==>
      && r.row < |w.store.subs| && ReminderDue(w.store.subs[r.row], w.now, r.days) && delivers(r.row)
      && w.store.subs[r.row].user < |w.store.users| && r.telegramId == w.store.users[w.store.subs[r.row].user]
  }

  /** The table after a run. */
  ghost predicate RightRows(w: World, subs: seq<Subscription>, sent: seq<Reminder>) {
    && |subs| == |w.store.subs|
    && (forall r :: r in sent && r.row < |subs| ==>
          Becomes(w.store.subs[r.row], subs[r.row], w.now, Some(r.days)))
    && (forall i: nat :: i < |subs| && (forall r :: r in sent ==> r.row != i) ==>
          Becomes(w.store.subs[i], subs[i], w.now, None))
  }

  lemma RunInNumbers(w: World, delivers: nat -> bool, subs: seq<Subscription>, sent: seq<Reminder>)
    requires |subs| == |w.store.subs|
    requires forall i: nat :: i < |subs| ==> subs[i] == Outcome(w, delivers, i).row
    requires OnePerRow(sent) && forall r :: r in sent <==> Sends(w, delivers, r)
    ensures RightReminders(w, delivers, sent) && RightRows(w, subs, sent)
  {
    forall i: nat | i < |subs|
      ensures Becomes(w.store.subs[i], subs[i], w.now, Outcome(w, delivers, i).sent)
      ensures forall days :: Outcome(w, delivers, i).sent == Some(days) <==>
                ReminderDue(w.store.subs[i], w.now, days) && delivers(i) && w.store.subs[i].user < |w.store.users|
    {
      OutcomeInNumbers(w, delivers, i);
    }
    forall i: nat | i < |subs| && (forall r :: r in sent ==> r.row != i)
      ensures Outcome(w, delivers, i).sent.None?
    {
      var outcome := Outcome(w, delivers, i);
      if outcome.sent.Some? {
        assert ReminderDue(w.store.subs[i], w.now, outcome.sent.value);
        var r := Reminder(i, w.store.users[w.store.subs[i].user], outcome.sent.value);
        assert Sends(w, delivers, r);
      }
    }
  }

  /** The visits so far are a run of the ledger, and the next ones may go on. */
  ghost predicate RunSoFar(w: World, run: seq<Event>, view: World, candidates: seq<nat>, n: nat) {
    && Legal(w, run) && view == Run(w, run) && n <= |candidates|
    && forall a :: n <= a < |candidates| ==> !JobsAt(view.jobs, candidates[a]).visit.point.AtRecord?
  }

  /** `after` is `before` once row `i` has been visited with this outcome, but for the jobs' records. */
  ghost predicate OneVisited(before: World, after: World, i: nat, outcome: Warning) {
    && i < |before.store.subs|
    && after == before.(store := before.store.(subs := before.store.subs[i := outcome.row]),
                        acts := before.acts + if outcome.sent.Some? then [Reminded(i, outcome.sent.value)] else [])
  }

  lemma RunOneMore(w: World, run: seq<Event>, before: World, after: World, candidates: seq<nat>, n: nat, reaches: bool)
      returns (visit: seq<Event>)
    requires RunSoFar(w, run, before, candidates, n) && n < |candidates|
    requires forall a, b :: 0 <= a < b < |candidates| ==> candidates[a] != candidates[b]
    requires var i := candidates[n];
             && i < |before.store.subs| && Due(before.store.subs[i], before.now)
             && (reaches ==> before.store.subs[i].user < |before.store.users|)
             && OneVisited(before, after, i, Warn(before.store.subs[i], before.store.subs[i], before.now, reaches))
    ensures Legal(before, visit)
    ensures RunSoFar(w, run + visit, after.(jobs := Run(before, visit).jobs), candidates, n + 1)
  {
    visit := OneMoreVisit(w, run, candidates[n], reaches);
    assert Run(before, visit) == after.(jobs := Run(before, visit).jobs);
    forall a | n + 1 <= a < |candidates|
      ensures !JobsAt(Run(before, visit).jobs, candidates[a]).visit.point.AtRecord?
    {
      assert candidates[a] != candidates[n];
    }
  }

  /** After `n` of the candidates the world is `view`, and the reminders `sent` are out. */
  ghost predicate OnTheWay(w: World, delivers: nat -> bool, candidates: seq<nat>, n: nat, view: World,
                           sent: seq<Reminder>, run: seq<Event>) {
    && n <= |candidates| && view.now == w.now && view.store.users == w.store.users
    && VisitedSoFar(w, delivers, candidates[..n], view.store.subs, sent)
    && (NoneUnrecorded(w) ==> RunSoFar(w, run, view, candidates, n))
  }

  lemma NextAsListed(w: World, delivers: nat -> bool, candidates: seq<nat>, n: nat, view: World,
                     sent: seq<Reminder>, run: seq<Event>)
    requires OnTheWay(w, delivers, candidates, n, view, sent, run) && ListsDue(w.store.subs, w.now, candidates)
    requires n < |candidates|
    ensures var i, subs := candidates[n], view.store.subs;
            && i !in candidates[..n] && i < |subs| && i < |w.store.subs| && subs[i] == w.store.subs[i]
            && Warn(subs[i], w.store.subs[i], w.now, Reaches(w, i, delivers)) == Outcome(w, delivers, i)
  {
    assert candidates[n] !in candidates[..n];
    StillAsListed(w, delivers, candidates[..n], view.store.subs, sent, candidates[n]);
  }

  /** The same step as a run of the ledger, if no earlier run left a reminder unrecorded. */
  lemma RunFurther(w: World, candidates: seq<nat>, n: nat, before: World, after: World, run: seq<Event>, reaches: bool)
      returns (visit: seq<Event>, jobs: map<nat, RowJobs>)
    requires NoneUnrecorded(w) ==> RunSoFar(w, run, before, candidates, n)
    requires n < |candidates| && ListsDue(w.store.subs, w.now, candidates)
    requires var i := candidates[n];
             && i < |before.store.subs| && Due(before.store.subs[i], before.now)
             && (reaches ==> before.store.subs[i].user < |before.store.users|)
             && OneVisited(before, after, i, Warn(before.store.subs[i], before.store.subs[i], before.now, reaches))
    ensures NoneUnrecorded(w) ==> RunSoFar(w, run + visit, after.(jobs := jobs), candidates, n + 1)
  {
    visit, jobs := [], after.jobs;
    if NoneUnrecorded(w) {
      visit := RunOneMore(w, run, before, after, candidates, n, reaches);
      jobs := Run(before, visit).jobs;
    }
  }

  lemma VisitedFurther(w: World, delivers: nat -> bool, candidates: seq<nat>, n: nat, subs: seq<Subscription>,
                       sent: seq<Reminder>, one: Option<Reminder>)
    requires n < |candidates| && candidates[n] !in candidates[..n] && candidates[n] < |subs|
    requires VisitedSoFar(w, delivers, candidates[..n], subs, sent)
    requires one.Some? <==> Outcome(w, delivers, candidates[n]).sent.Some?
    requires one.Some? ==> one.value.row == candidates[n] && Sends(w, delivers, one.value)
    ensures VisitedSoFar(w, delivers, candidates[..n + 1],
                         subs[candidates[n] := Outcome(w, delivers, candidates[n]).row],
                         if one.Some? then sent + [one.value] else sent)
  {
    VisitedOneMore(w, delivers, candidates[..n], subs, sent, candidates[n], one);
    assert candidates[..n + 1] == candidates[..n] + [candidates[n]];
  }

  lemma OneFurther(w: World, delivers: nat -> bool, candidates: seq<nat>, n: nat, before: World, after: World,
                   sent: seq<Reminder>, one: Option<Reminder>, run: seq<Event>)
      returns (visit: seq<Event>, jobs: map<nat, RowJobs>)
    requires OnTheWay(w, delivers, candidates, n, before, sent, run) && ListsDue(w.store.subs, w.now, candidates)
    requires n < |candidates| && candidates[n] < |w.store.subs|
    requires OneVisited(before, after, candidates[n], Outcome(w, delivers, candidates[n]))
    requires one.Some? <==> Outcome(w, delivers, candidates[n]).sent.Some?
    requires one.Some? ==> one.value.row == candidates[n] && Sends(w, delivers, one.value)
    ensures OnTheWay(w, delivers, candidates, n + 1, after.(jobs := jobs),
                     if one.Some? then sent + [one.value] else sent, run + visit)
  {
    var i := candidates[n];
    NextAsListed(w, delivers, candidates, n, before, sent, run);
    VisitedFurther(w, delivers, candidates, n, before.store.subs, sent, one);
    visit, jobs := RunFurther(w, candidates, n, before, after, run, Reaches(w, i, delivers));
  }

  /** One run of the job: every row that expires soon is visited once, in any order, and nothing else changes; each
      reminder that is due goes to the owner of its row. `run` is the same work as a run of the ledger, unless an
      earlier run died between sending a reminder and recording it. */
  method RunExpirationWarnings(db: Database, now: int, delivers: nat -> bool)
      returns (sent: seq<Reminder>, ghost run: seq<Event>)
    modifies db`subs, db`acts, db`jobs
    ensures RightReminders(old(db.View(now)), delivers, sent)
    ensures RightRows(old(db.View(now)), db.subs, sent)
    ensures forall i: nat :: i < |db.subs| ==> db.subs[i] == Outcome(old(db.View(now)), delivers, i).row
    ensures NoneUnrecorded(old(db.View(now))) ==>
              Legal(old(db.View(now)), run) && db.View(now) == Run(old(db.View(now)), run)
  {
    var candidates := db.ListExpiringWithin(now);
    var listed := db.subs;
    sent, run := [], [];
    ghost var w := db.View(now);
    for n := 0 to |candidates|
      invariant OnTheWay(w, delivers, candidates, n, db.View(now), sent, run)
    {
      var i := candidates[n];
      ghost var before := db.View(now);
      NextAsListed(w, delivers, candidates, n, before, sent, run);
      var one := WarnOne(db, i, listed[i], now, delivers(i));
      ghost var visit, jobs := OneFurther(w, delivers, candidates, n, before, db.View(now), sent, one, run);
      db.jobs := jobs;
      run := run + visit;
      if one.Some? {
        sent := sent + [one.value];
      }
    }
    assert candidates[..|candidates|] == candidates;
    AllVisited(w, delivers, candidates, db.subs, sent);
    RunInNumbers(w, delivers, db.subs, sent);
  }
}
