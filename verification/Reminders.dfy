/** The reminder cycle: at most one reminder for each of the last three days of a paid period. */
module Reminders {
  import opened Options
  import opened Clock
  import opened StateMachine
  import opened Rows
  import opened Ledger
  import opened Invariants

  /** For any times of the job, any pattern of failed deliveries, and any renewals, confirmations and removals in
      between, the reminders delivered between two activations of a row count strictly down within 3, 2, 1: no
      duplicate, no backlog. Once recorded, the row remembers the last of them, exactly unless all it remembers is
      a reminder sent before the period. */
  lemma RemindersCountDown(w: World, run: seq<Event>, i: nat)
    requires Inv(w) && RowsSound(w) && Legal(w, run) && i < |Run(w, run).store.subs|
    ensures var w' := Run(w, run); var cycle, jobs := Cycle(w'.acts, i), JobsAt(w'.jobs, i);
            && CountsDown(cycle) && |cycle| <= 3
            && (!InFlight(jobs.visit) ==>
                  (CycleOk(cycle, w'.store.subs[i].lastWarning) <==> !(cycle == [] && jobs.note == Leftover)))
  {
    RunKeepsRows(w, run);
    var w' := Run(w, run);
    var cycle := Cycle(w'.acts, i);
    assert Sound(StateOf(w', i), cycle, w'.now);
    AtMostThree(cycle);
    if !InFlight(JobsAt(w'.jobs, i).visit) {
      CycleOkExactly(StateOf(w', i), cycle, w'.now);
    }
  }

  /** A count that strictly decreases within 3, 2, 1 has at most three entries. */
  lemma AtMostThree(cycle: seq<int>)
    requires CountsDown(cycle)
    ensures |cycle| <= 3
  {
    if cycle != [] {
      CountAt(cycle, |cycle| - 1);
    }
  }

  lemma {:induction false} CountAt(cycle: seq<int>, k: nat)
    requires CountsDown(cycle) && k < |cycle|
    ensures cycle[k] <= WARNING_WINDOW_DAYS - k
  {
    if k > 0 {
      CountAt(cycle, k - 1);
    }
  }

  // ----- failed deliveries -----

  /** The job at one row at one run: visited when the row is due. */
  function Visited(r: Subscription, now: int, delivered: bool): Warning {
    if Due(r, now) then Warn(r, r, now, delivered) else Warning(r, None)
  }

  /** The days-left value sent, if any. */
  function SentDays(warning: Warning): seq<int> {
    if warning.sent.Some? then [warning.sent.value] else []
  }

  /** A reminder that does not get through is not lost: any later visit sends what it would have sent anyway,
      and leaves the row as it would have left it. */
  lemma FailedDeliveryIsRetried(r: Subscription, now: int, later: int)
    requires Due(r, now) && Due(r, later)
    ensures Visited(r, now, false).sent.None?
    ensures var retried, plain := Visited(Visited(r, now, false).row, later, true), Visited(r, later, true);
            retried.sent == plain.sent && (plain.sent.Some? ==> retried.row == plain.row)
  {
    DaysRemainingMeaning(r.expiresAt.value, now, WARNING_WINDOW_DAYS);
    DaysRemainingMeaning(r.expiresAt.value, later, WARNING_WINDOW_DAYS);
  }

  // ----- completeness of a daily schedule -----

  /** What `runs` daily runs deliver for a row, starting at `now`, when every message goes through. */
  function Delivered(r: Subscription, now: int, runs: nat): seq<int>
    decreases runs
  {
    if runs == 0 then []
    else
      var warning := Visited(r, now, true);
      SentDays(warning) + Delivered(warning.row, now + DAY, runs - 1)
  }

  /** d, d-1, ..., 1 */
  function Countdown(d: nat): seq<int> {
    if d == 0 then [] else [d] + Countdown(d - 1)
  }

  /** Past the expiry the job sends nothing. */
  lemma {:induction false} NothingAfterExpiry(r: Subscription, now: int, runs: nat)
    requires IsLive(r.status) && r.expiresAt.Some? && r.expiresAt.value < now
    ensures Delivered(r, now, runs) == []
    decreases runs
  {
    if runs > 0 {
      NothingAfterExpiry(r, now + DAY, runs - 1);
    }
  }

  /** Reminded about the last day already, the row is left in peace. */
  lemma {:induction false} NothingAfterLastDay(r: Subscription, now: int, runs: nat)
    requires IsLive(r.status) && r.expiresAt.Some? && r.lastWarning.Some? && r.lastWarning.value <= 1
    ensures Delivered(r, now, runs) == []
    decreases runs
  {
    if runs > 0 {
      if Due(r, now) {
        DaysRemainingMeaning(r.expiresAt.value, now, WARNING_WINDOW_DAYS);
      }
      NothingAfterLastDay(Visited(r, now, true).row, now + DAY, runs - 1);
    }
  }

  /** With `days` days left, the number of reminders still to come: for each of those days, or, when a reminder
      for some day is on record already, for the days after it. */
  function RemindersLeft(lastWarning: Option<int>, days: nat): nat {
    if lastWarning.Some? && lastWarning.value <= days then Max(0, lastWarning.value - 1) else days
  }

  /** From any run inside the window on, whatever reminder the row remembers, the daily job counts down from the days
      then left to one, or from the day after the remembered one if that is later. */
  lemma {:induction false} DailyCountdown(r: Subscription, now: int, runs: nat)
    requires Due(r, now) && now + runs * DAY > r.expiresAt.value
    ensures Delivered(r, now, runs) == Countdown(RemindersLeft(r.lastWarning, DaysRemaining(r.expiresAt.value, now)))
    decreases runs
  {
    var expiry := r.expiresAt.value;
    var d := DaysRemaining(expiry, now);
    DaysRemainingMeaning(expiry, now, WARNING_WINDOW_DAYS);
    DaysRemainingNextDay(expiry, now);
    var next := Visited(r, now, true).row;
    if d == 1 {
      NothingAfterLastDay(next, now + DAY, runs - 1);
      assert Countdown(0) == [];
    } else {
      DaysRemainingMeaning(expiry, now, 1);
      DailyCountdown(next, now + DAY, runs - 1);
    }
  }

  /** The first run in the window comes while more than two days are left. */
  lemma CountdownFromThree(r: Subscription, now: int, runs: nat)
    requires Due(r, now) && r.expiresAt.value > now + 2 * DAY && now + runs * DAY > r.expiresAt.value
    ensures Delivered(r, now, runs) == Countdown(RemindersLeft(r.lastWarning, WARNING_WINDOW_DAYS))
  {
    DaysRemainingMeaning(r.expiresAt.value, now, 2);
    DaysRemainingMeaning(r.expiresAt.value, now, WARNING_WINDOW_DAYS);
    DailyCountdown(r, now, runs);
  }

  lemma NotYetDue(r: Subscription, now: int, runs: nat)
    requires r.expiresAt.Some? && r.expiresAt.value > now + WARNING_WINDOW_DAYS * DAY && runs > 0
    ensures Delivered(r, now, runs) == Delivered(r, now + DAY, runs - 1)
  {
    assert Visited(r, now, true) == Warning(r, None);
  }

  /** A daily job that starts before the window and goes on past the expiry, however the expiry lies relative to the
      schedule: it delivers 3, 2, 1, or what is left of that after the remembered reminder. */
  lemma {:induction false} DailyReminders(r: Subscription, now: int, runs: nat)
    requires IsLive(r.status) && r.expiresAt.Some?
    requires now + WARNING_WINDOW_DAYS * DAY <= r.expiresAt.value < now + runs * DAY
    ensures Delivered(r, now, runs) == Countdown(RemindersLeft(r.lastWarning, WARNING_WINDOW_DAYS))
    decreases runs
  {
    var expiry := r.expiresAt.value;
    if expiry == now + WARNING_WINDOW_DAYS * DAY {
      // The aligned schedule: four runs fall in the closed window.
      CountdownFromThree(r, now, runs);
    } else {
      NotYetDue(r, now, runs);
      assert now + runs * DAY == (now + DAY) + (runs - 1) * DAY;
      if expiry < now + (WARNING_WINDOW_DAYS + 1) * DAY {
        CountdownFromThree(r, now + DAY, runs - 1);
      } else {
        DailyReminders(r, now + DAY, runs - 1);
      }
    }
  }

  lemma {:induction false} CountdownLength(d: nat)
    ensures |Countdown(d)| == d
  {
    if d > 0 {
      CountdownLength(d - 1);
    }
  }

  lemma FullCountdown(d: nat)
    ensures Countdown(d) == [3, 2, 1] <==> d == 3
  {
    CountdownLength(d);
    assert Countdown(3) == [3] + ([2] + ([1] + Countdown(0)));
  }

  /** Such a daily job delivers exactly 3, 2, 1 if and only if no reminder for one of these days is on record when it
      starts. */
  lemma DailyRemindersAreComplete(r: Subscription, now: int, runs: nat)
    requires IsLive(r.status) && r.expiresAt.Some?
    requires now + WARNING_WINDOW_DAYS * DAY <= r.expiresAt.value < now + runs * DAY
    ensures Delivered(r, now, runs) == [3, 2, 1] <==>
            r.lastWarning.None? || r.lastWarning.value > WARNING_WINDOW_DAYS
  {
    DailyReminders(r, now, runs);
    FullCountdown(RemindersLeft(r.lastWarning, WARNING_WINDOW_DAYS));
  }

  // ----- a visit and a daily schedule as runs of the ledger -----

  /** The events of an uninterrupted visit to row `i`, which is in state `r`. */
  function VisitEvents(r: Subscription, i: nat, now: int, delivered: bool): seq<Event>
    requires Due(r, now)
  {
    var days := DaysRemaining(r.expiresAt.value, now);
    [TakeDue(i), VisitHop(i)]
    + (if r.lastWarning.Some? && r.lastWarning.value <= days then []
       else if delivered then [VisitSend(i, true), VisitRecord(i)] else [VisitSend(i, false)])
  }

  /** `after` is `before` with row `i` set to `r`, the history extended by `acts`, and the visit there at `point`. */
  ghost predicate OnlyRow(before: World, after: World, i: nat, r: Subscription, acts: seq<Act>, point: VisitPoint)
    requires i < |before.store.subs|
  {
    && after.now == before.now && after.drafts == before.drafts && after.acts == before.acts + acts
    && after.store == before.store.(subs := before.store.subs[i := r])
    && JobsAt(after.jobs, i).visit.point == point
    && forall j :: j != i ==> JobsAt(after.jobs, j) == JobsAt(before.jobs, j)
  }

  lemma OnlyRowTwice(a: World, b: World, c: World, i: nat, r: Subscription, r': Subscription, acts: seq<Act>,
                     point: VisitPoint, point': VisitPoint)
    requires i < |a.store.subs| && OnlyRow(a, b, i, r, [], point)
    requires OnlyRow(b, c, i, r', acts, point')
    ensures OnlyRow(a, c, i, r', acts, point')
  {
  }

  lemma ListingAndHop(w: World, i: nat, rest: seq<Event>) returns (hopped: World)
    requires i < |w.store.subs| && Due(w.store.subs[i], w.now)
    requires !JobsAt(w.jobs, i).visit.point.AtRecord?
    ensures var r := w.store.subs[i]; var days := DaysRemaining(r.expiresAt.value, w.now);
            OnlyRow(w, hopped, i, r.(status := EXPIRING), [],
                    if r.lastWarning.Some? && r.lastWarning.value <= days then Resting else AtSend(days))
    ensures Legal(hopped, rest) ==> var run := [TakeDue(i), VisitHop(i)] + rest;
                                    Legal(w, run) && Run(w, run) == Run(hopped, rest)
  {
    DaysRemainingMeaning(w.store.subs[i].expiresAt.value, w.now, WARNING_WINDOW_DAYS);
    var taken := Next(w, TakeDue(i));
    assert taken.store.subs == w.store.subs && taken.acts == w.acts;
    hopped := Next(taken, VisitHop(i));
    assert hopped.acts == w.acts + [];
    if Legal(hopped, rest) {
      RunCons(taken, VisitHop(i), rest);
      RunCons(w, TakeDue(i), [VisitHop(i)] + rest);
      assert [TakeDue(i), VisitHop(i)] + rest == [TakeDue(i)] + ([VisitHop(i)] + rest);
    }
  }

  lemma SendAndRecord(w: World, i: nat, days: int)
    requires i < |w.store.subs| && JobsAt(w.jobs, i).visit.point == AtSend(days)
    requires w.store.subs[i].user < |w.store.users|
    ensures var run := [VisitSend(i, true), VisitRecord(i)];
            Legal(w, run)
            && OnlyRow(w, Run(w, run), i, w.store.subs[i].(lastWarning := Some(days)), [Reminded(i, days)], Resting)
  {
    var sent := Next(w, VisitSend(i, true));
    assert sent.store.subs == w.store.subs;
    RunCons(sent, VisitRecord(i), []);
    RunCons(w, VisitSend(i, true), [VisitRecord(i)] + []);
    assert [VisitSend(i, true), VisitRecord(i)] == [VisitSend(i, true)] + ([VisitRecord(i)] + []);
    assert Run(w, [VisitSend(i, true), VisitRecord(i)]) == Next(sent, VisitRecord(i));
  }

  lemma SendInVain(w: World, i: nat, days: int)
    requires i < |w.store.subs| && JobsAt(w.jobs, i).visit.point == AtSend(days)
    ensures var run := [VisitSend(i, false)];
            Legal(w, run) && OnlyRow(w, Run(w, run), i, w.store.subs[i], [], Resting)
  {
    RunCons(w, VisitSend(i, false), []);
    assert [VisitSend(i, false)] == [VisitSend(i, false)] + [];
    assert w.acts + [] == w.acts;
  }

  lemma VisitToTheRecord(w: World, i: nat, days: int)
    requires i < |w.store.subs| && Due(w.store.subs[i], w.now)
    requires days == DaysRemaining(w.store.subs[i].expiresAt.value, w.now)
    requires !JobsAt(w.jobs, i).visit.point.AtRecord? && w.store.subs[i].user < |w.store.users|
    requires !(w.store.subs[i].lastWarning.Some? && w.store.subs[i].lastWarning.value <= days)
    ensures var run := [TakeDue(i), VisitHop(i)] + [VisitSend(i, true), VisitRecord(i)];
            Legal(w, run)
            && OnlyRow(w, Run(w, run), i, w.store.subs[i].(status := EXPIRING, lastWarning := Some(days)),
                       [Reminded(i, days)], Resting)
  {
    var rest, marked := [VisitSend(i, true), VisitRecord(i)], w.store.subs[i].(status := EXPIRING);
    var hopped := ListingAndHop(w, i, rest);
    SendAndRecord(hopped, i, days);
    OnlyRowTwice(w, hopped, Run(hopped, rest), i, marked, marked.(lastWarning := Some(days)), [Reminded(i, days)],
                 AtSend(days), Resting);
  }

  lemma VisitInVain(w: World, i: nat, days: int)
    requires i < |w.store.subs| && Due(w.store.subs[i], w.now)
    requires days == DaysRemaining(w.store.subs[i].expiresAt.value, w.now)
    requires !JobsAt(w.jobs, i).visit.point.AtRecord?
    requires !(w.store.subs[i].lastWarning.Some? && w.store.subs[i].lastWarning.value <= days)
    ensures var run := [TakeDue(i), VisitHop(i)] + [VisitSend(i, false)];
            Legal(w, run) && OnlyRow(w, Run(w, run), i, w.store.subs[i].(status := EXPIRING), [], Resting)
  {
    var rest, marked := [VisitSend(i, false)], w.store.subs[i].(status := EXPIRING);
    var hopped := ListingAndHop(w, i, rest);
    SendInVain(hopped, i, days);
    OnlyRowTwice(w, hopped, Run(hopped, rest), i, marked, marked, [], AtSend(days), Resting);
  }

  lemma VisitWithNothingToSend(w: World, i: nat)
    requires i < |w.store.subs| && Due(w.store.subs[i], w.now)
    requires !JobsAt(w.jobs, i).visit.point.AtRecord?
    requires w.store.subs[i].lastWarning.Some?
             && w.store.subs[i].lastWarning.value <= DaysRemaining(w.store.subs[i].expiresAt.value, w.now)
    ensures var run := [TakeDue(i), VisitHop(i)] + [];
            Legal(w, run) && OnlyRow(w, Run(w, run), i, w.store.subs[i].(status := EXPIRING), [], Resting)
  {
    var hopped := ListingAndHop(w, i, []);
  }

  /** Left alone, the transactions of a visit amount to what the job does at a row in one go. */
  lemma UninterruptedVisit(w: World, i: nat, delivered: bool)
    requires i < |w.store.subs| && Due(w.store.subs[i], w.now)
    requires !JobsAt(w.jobs, i).visit.point.AtRecord?
    requires delivered ==> w.store.subs[i].user < |w.store.users|
    ensures var r := w.store.subs[i]; var run := VisitEvents(r, i, w.now, delivered);
            && Legal(w, run)
            && var warning := Warn(r, r, w.now, delivered);
               OnlyRow(w, Run(w, run), i, warning.row,
                       if warning.sent.Some? then [Reminded(i, warning.sent.value)] else [], Resting)
  {
    var r := w.store.subs[i];
    var days := DaysRemaining(r.expiresAt.value, w.now);
    DaysRemainingMeaning(r.expiresAt.value, w.now, WARNING_WINDOW_DAYS);
    if r.lastWarning.Some? && r.lastWarning.value <= days {
      VisitWithNothingToSend(w, i);
    } else if delivered {
      VisitToTheRecord(w, i, days);
    } else {
      VisitInVain(w, i, days);
    }
  }

  /** One run of the job at row `i`, as a run of the ledger. */
  function FirstVisit(r: Subscription, i: nat, now: int): seq<Event> {
    if Due(r, now) then VisitEvents(r, i, now, true) else []
  }

  /** The events of `runs` daily runs that concern row `i`, whose state at the first run is `r`. */
  function Schedule(r: Subscription, i: nat, now: int, runs: nat): seq<Event>
    decreases runs
  {
    if runs == 0 then []
    else
      FirstVisit(r, i, now) + ([Tick(now + DAY)] + Schedule(Visited(r, now, true).row, i, now + DAY, runs - 1))
  }

  /** The job may visit row `i`: the row has an owner, and no reminder is waiting to be recorded. */
  predicate Visitable(w: World, i: nat) {
    i < |w.store.subs| && w.store.subs[i].user < |w.store.users| && !JobsAt(w.jobs, i).visit.point.AtRecord?
  }

  lemma FirstVisitDelivers(w: World, i: nat)
    requires Visitable(w, i)
    ensures var run := FirstVisit(w.store.subs[i], i, w.now);
            && Legal(w, run)
            && var w', warning := Run(w, run), Visited(w.store.subs[i], w.now, true);
               && w'.now == w.now && Visitable(w', i) && w'.store.subs[i] == warning.row
               && Cycle(w'.acts, i) == Cycle(w.acts, i) + SentDays(warning)
  {
    if Due(w.store.subs[i], w.now) {
      UninterruptedVisit(w, i, true);
      var acts' := Run(w, FirstVisit(w.store.subs[i], i, w.now)).acts;
      if |acts'| > |w.acts| {
        assert acts'[..|w.acts|] == w.acts;
      } else {
        assert acts' == w.acts;
      }
    }
  }

  /** One day of the schedule: the world at the time of the next run, from which `rest` goes on. */
  lemma Tomorrow(w: World, i: nat, rest: seq<Event>) returns (next: World)
    requires Visitable(w, i)
    ensures Visitable(next, i) && next.now == w.now + DAY
    ensures next.store.subs[i] == Visited(w.store.subs[i], w.now, true).row
    ensures Cycle(next.acts, i) == Cycle(w.acts, i) + SentDays(Visited(w.store.subs[i], w.now, true))
    ensures Legal(next, rest) ==>
              var day := FirstVisit(w.store.subs[i], i, w.now) + ([Tick(w.now + DAY)] + rest);
              Legal(w, day) && Run(w, day) == Run(next, rest)
  {
    var first := FirstVisit(w.store.subs[i], i, w.now);
    FirstVisitDelivers(w, i);
    var visited := Run(w, first);
    next := Next(visited, Tick(w.now + DAY));
    if Legal(next, rest) {
      RunCons(visited, Tick(w.now + DAY), rest);
      RunConcat(w, first, [Tick(w.now + DAY)] + rest);
    }
  }

  /** The run delivers the given days for row `i`, on top of the cycle so far. */
  ghost predicate Delivers(w: World, i: nat, run: seq<Event>, days: seq<int>) {
    Legal(w, run) && Cycle(Run(w, run).acts, i) == Cycle(w.acts, i) + days
  }

  lemma AppendTwice(a: seq<int>, b: seq<int>, c: seq<int>)
    ensures (a + b) + c == a + (b + c)
  {
  }

  lemma DeliversOneMore(w: World, i: nat, rest: seq<Event>, later: seq<int>, next: World, day: seq<Event>,
                        today: seq<int>)
    requires Delivers(next, i, rest, later) && Cycle(next.acts, i) == Cycle(w.acts, i) + today
    requires Legal(w, day) && Run(w, day) == Run(next, rest)
    ensures Delivers(w, i, day, today + later)
  {
    AppendTwice(Cycle(w.acts, i), today, later);
  }

  /** Played on the ledger, the daily schedule delivers what Delivered says, on top of the cycle so far. */
  lemma {:induction false} ScheduleDelivers(w: World, i: nat, runs: nat)
    requires Visitable(w, i)
    ensures Delivers(w, i, Schedule(w.store.subs[i], i, w.now, runs), Delivered(w.store.subs[i], w.now, runs))
    decreases runs
  {
    if runs == 0 {
      assert Cycle(w.acts, i) + [] == Cycle(w.acts, i);
    } else {
      var r := w.store.subs[i];
      var visited := Visited(r, w.now, true);
      var rest := Schedule(visited.row, i, w.now + DAY, runs - 1);
      var later := Delivered(visited.row, w.now + DAY, runs - 1);
      var next := Tomorrow(w, i, rest);
      ScheduleDelivers(next, i, runs - 1);
      DeliversOneMore(w, i, rest, later, next, FirstVisit(r, i, w.now) + ([Tick(w.now + DAY)] + rest),
                      SentDays(visited));
    }
  }

  /** In every world that any run reaches, a daily job left alone from before the reminder window of a row on delivers
      3, 2, 1, less what a remembered reminder suppresses: all three exactly when none is on record. Strictly before
      the window, one can only be on record from a visit that listed the row before its latest renewal and recorded
      after it, or from before the history starts. */
  lemma PeriodGetsAllThreeExactly(w: World, run: seq<Event>, i: nat, runs: nat)
    requires Inv(w) && RowsSound(w) && Legal(w, run) && Visitable(Run(w, run), i)
    requires var r, now := Run(w, run).store.subs[i], Run(w, run).now;
             IsLive(r.status) && r.expiresAt.Some?
             && now + WARNING_WINDOW_DAYS * DAY <= r.expiresAt.value < now + runs * DAY
    ensures var w' := Run(w, run);
            var r, note, left := w'.store.subs[i], JobsAt(w'.jobs, i).note, Delivered(w'.store.subs[i], w'.now, runs);
            && Delivers(w', i, Schedule(r, i, w'.now, runs), left)
            && left == Countdown(RemindersLeft(r.lastWarning, WARNING_WINDOW_DAYS))
            && (left == [3, 2, 1] <==> note == NotNoted)
            && (w'.now + WARNING_WINDOW_DAYS * DAY < r.expiresAt.value ==>
                  (left == [3, 2, 1] <==> note !in {LateNote, Leftover}))
  {
    RunKeepsRows(w, run);
    var w' := Run(w, run);
    assert Sound(StateOf(w', i), Cycle(w'.acts, i), w'.now);
    ScheduleDelivers(w', i, runs);
    DailyReminders(w'.store.subs[i], w'.now, runs);
    DailyRemindersAreComplete(w'.store.subs[i], w'.now, runs);
  }

  // ----- one visit, with renewals at every point where its transactions leave room -----

  /** A row and the reminders delivered in its current period. */
  datatype Traced = Traced(st: RowState, cycle: seq<int>)

  /** One event, if it can happen. */
  function Step(x: Traced, ev: RowEvent, now: int): Traced {
    if CanRow(x.st, ev, now) then Traced(RowAfter(x.st, ev, now), CycleAfter(x.st, ev, x.cycle)) else x
  }

  function RenewIf(x: Traced, renews: bool, now: int): Traced {
    if renews then Step(x, Renew, now) else x
  }

  /** A visit whose transactions take place at `t1`, `t2` and `t3`, while the subscriber renews where the flags say:
      before the hop, during the send, before the record. */
  function VisitAmidRenewals(x: Traced, t1: int, t2: int, t3: int, renewsBeforeHop: bool, renewsDuringSend: bool,
                             renewsBeforeRecord: bool, delivered: bool): Traced {
    var hopped := Step(RenewIf(x, renewsBeforeHop, t1), VisitHops, t1);
    var sent := Step(RenewIf(hopped, renewsDuringSend, t2), VisitSends(delivered), t2);
    Step(RenewIf(sent, renewsBeforeRecord, t3), VisitRecords, t3)
  }

  /** The row as just listed for a visit: due, and in order. */
  ghost predicate JustListed(x: Traced, now: int) {
    var r := x.st.row;
    && Due(r, now) && RowOk(r, now) && CycleOk(x.cycle, r.lastWarning)
    && x.st.jobs.visit == Visit(AtHop, r.status, r.expiresAt.value, r.lastWarning, false, false)
  }

  /** The row after the hop of a visit, renewed since it was listed or not. */
  ghost predicate MidVisit(x: Traced, renewed: bool) {
    var r := x.st.row;
    && x.st.jobs.visit.renewed == renewed && CycleOk(x.cycle, r.lastWarning) && IsLive(r.status)
    && r.expiresAt.Some?
    && (r.lastWarning.Some? ==> r.status == EXPIRING && 1 <= r.lastWarning.value <= WARNING_WINDOW_DAYS)
    && (if renewed then x.cycle == [] else r.status == EXPIRING)
  }

  /** The hop finds nothing to send, or goes on to the send, with the row moved if it was listed as ACTIVE. */
  lemma HopAmidRenewals(x: Traced, now: int, t1: int, renews: bool)
    requires JustListed(x, now) && now <= t1
    ensures var r, hopped := x.st.row, Step(RenewIf(x, renews, t1), VisitHops, t1);
            var days := DaysRemaining(r.expiresAt.value, t1);
            && MidVisit(hopped, renews) && 1 <= days <= WARNING_WINDOW_DAYS
            && hopped.st.jobs.visit.point ==
               (if r.lastWarning.Some? && r.lastWarning.value <= days then Resting else AtSend(days))
            && hopped.st.row.status == (if renews && r.status == EXPIRING then ACTIVE else EXPIRING)
            && hopped.st.row.expiresAt.value == (if renews then Renewed(r.expiresAt, t1) else r.expiresAt.value)
            && (hopped.cycle != [] ==> hopped.cycle[|hopped.cycle| - 1] > days || hopped.st.jobs.visit.point.Resting?)
  {
    DaysRemainingMeaning(x.st.row.expiresAt.value, t1, WARNING_WINDOW_DAYS);
  }

  lemma RenewalMidVisit(x: Traced, renewed: bool, t: int)
    requires MidVisit(x, renewed)
    ensures var x' := Step(x, Renew, t);
            && MidVisit(x', true) && x'.st.row.status == ACTIVE && x'.cycle == []
            && x'.st.jobs.visit.point == x.st.jobs.visit.point
            && x'.st.jobs.visit.renewedSinceSend
  {
  }

  /** The row ends up in order: ACTIVE without a reminder on record, or EXPIRING with at most three days to go. */
  predicate EndsInOrder(r: Subscription, t3: int, renews: bool, records: bool) {
    r.expiresAt.Some?
    && if renews || r.status == ACTIVE then !records else r.expiresAt.value <= t3 + WARNING_WINDOW_DAYS * DAY
  }

  /** The end of a visit that reached the send. */
  lemma SendAmidRenewals(x: Traced, renewed: bool, days: int, t2: int, t3: int, renews: bool, delivered: bool)
    requires MidVisit(x, renewed) && x.st.jobs.visit.point == AtSend(days)
    requires 1 <= days <= WARNING_WINDOW_DAYS && (x.cycle != [] ==> x.cycle[|x.cycle| - 1] > days)
    ensures var end := Step(RenewIf(Step(x, VisitSends(delivered), t2), renews, t3), VisitRecords, t3);
            && (RowOk(end.st.row, t3) <==> EndsInOrder(x.st.row, t3, renews, delivered))
            && (CycleOk(end.cycle, end.st.row.lastWarning) <==> !delivered || !renews)
            && IsLive(end.st.row.status) && end.st.row.expiresAt.Some?
            && (renewed || renews ==> end.st.row.lastWarning == if delivered then Some(days) else None)
  {
    CountsDownOneMore(x.cycle, days);
    var sent := Step(x, VisitSends(delivered), t2);
    if renews {
      assert RenewIf(sent, renews, t3).st.row.status == ACTIVE;
    }
  }

  /** The end of a visit that had nothing to send. */
  lemma NothingSent(x: Traced, renewed: bool, t2: int, t3: int, renews: bool, delivered: bool)
    requires MidVisit(x, renewed) && x.st.jobs.visit.point.Resting?
    ensures var end := Step(RenewIf(Step(x, VisitSends(delivered), t2), renews, t3), VisitRecords, t3);
            && (RowOk(end.st.row, t3) <==> EndsInOrder(x.st.row, t3, renews, false))
            && CycleOk(end.cycle, end.st.row.lastWarning)
            && IsLive(end.st.row.status) && end.st.row.expiresAt.Some?
            && (renewed || renews ==> end.st.row.lastWarning.None?)
  {
    if renews {
      RenewalMidVisit(x, renewed, t3);
    }
  }

  /** An earlier reminder makes one at `t1` unnecessary. */
  predicate NothingToSend(listed: Subscription, t1: int)
    requires listed.expiresAt.Some?
  {
    listed.lastWarning.Some? && listed.lastWarning.value <= DaysRemaining(listed.expiresAt.value, t1)
  }

  /** Exactly when a visit leaves the row in order. If the row was not renewed after the hop, and was hopped or not
      renewed at all, it ends as EXPIRING: in order unless a renewal before the hop has it last for more than three
      days. Otherwise it ends as ACTIVE: in order unless a reminder was delivered, and so recorded. With nothing to
      send, it always is. The reminder cycle is in order exactly unless the subscriber renewed between a delivery and
      its record. And if the subscriber renewed at all, the row remembers a reminder exactly when one was delivered. */
  lemma VisitAmidRenewalsExactly(x: Traced, now: int, t1: int, t2: int, t3: int, renewsBeforeHop: bool,
                                 renewsDuringSend: bool, renewsBeforeRecord: bool, delivered: bool)
    requires JustListed(x, now) && now <= t1 <= t2 <= t3
    ensures var end := VisitAmidRenewals(x, t1, t2, t3, renewsBeforeHop, renewsDuringSend, renewsBeforeRecord,
                                         delivered);
            var r, renewsLater := x.st.row, renewsDuringSend || renewsBeforeRecord;
            var nothingToSend := NothingToSend(r, t1);
            && (RowOk(end.st.row, t3) <==>
                nothingToSend
                || if !renewsLater && (r.status == ACTIVE || !renewsBeforeHop)
                   then !renewsBeforeHop || Renewed(r.expiresAt, t1) <= t3 + WARNING_WINDOW_DAYS * DAY
                   else !delivered)
            && (CycleOk(end.cycle, end.st.row.lastWarning) <==>
                nothingToSend || !delivered || !renewsBeforeRecord)
            && IsLive(end.st.row.status) && end.st.row.expiresAt.Some?
            && (renewsBeforeHop || renewsLater ==>
                  end.st.row.lastWarning == if nothingToSend || !delivered then None
                                            else Some(DaysRemaining(r.expiresAt.value, t1)))
  {
    HopAmidRenewals(x, now, t1, renewsBeforeHop);
    var hopped := Step(RenewIf(x, renewsBeforeHop, t1), VisitHops, t1);
    if renewsDuringSend {
      RenewalMidVisit(hopped, renewsBeforeHop, t2);
    }
    var sending := RenewIf(hopped, renewsDuringSend, t2);
    var renewed := renewsBeforeHop || renewsDuringSend;
    if hopped.st.jobs.visit.point.AtSend? {
      SendAmidRenewals(sending, renewed, hopped.st.jobs.visit.point.days, t2, t3, renewsBeforeRecord, delivered);
    } else {
      NothingSent(sending, renewed, t2, t3, renewsBeforeRecord, delivered);
    }
  }

  /** What a period renewed during a visit gets from a daily job that starts before its window: all three reminders
      exactly when the visit had nothing to send or did not deliver; else only those for fewer days than the visit's
      reminder was for. */
  lemma RenewedPeriodExactly(x: Traced, now: int, t1: int, t2: int, t3: int, renewsBeforeHop: bool,
                             renewsDuringSend: bool, renewsBeforeRecord: bool, delivered: bool, start: int, runs: nat)
    requires JustListed(x, now) && now <= t1 <= t2 <= t3
    requires renewsBeforeHop || renewsDuringSend || renewsBeforeRecord
    requires var r := VisitAmidRenewals(x, t1, t2, t3, renewsBeforeHop, renewsDuringSend, renewsBeforeRecord,
                                        delivered).st.row;
             r.expiresAt.Some? && start + WARNING_WINDOW_DAYS * DAY <= r.expiresAt.value < start + runs * DAY
    ensures var r := VisitAmidRenewals(x, t1, t2, t3, renewsBeforeHop, renewsDuringSend, renewsBeforeRecord,
                                       delivered).st.row;
            var spared, days := NothingToSend(x.st.row, t1) || !delivered, DaysRemaining(x.st.row.expiresAt.value, t1);
            && (Delivered(r, start, runs) == [3, 2, 1] <==> spared)
            && (!spared ==> 1 <= days <= 3 && Delivered(r, start, runs) == Countdown(days - 1))
  {
    VisitAmidRenewalsExactly(x, now, t1, t2, t3, renewsBeforeHop, renewsDuringSend, renewsBeforeRecord, delivered);
    var r := VisitAmidRenewals(x, t1, t2, t3, renewsBeforeHop, renewsDuringSend, renewsBeforeRecord, delivered).st.row;
    DaysRemainingMeaning(x.st.row.expiresAt.value, t1, WARNING_WINDOW_DAYS);
    DailyReminders(r, start, runs);
    DailyRemindersAreComplete(r, start, runs);
  }

  // ----- a renewal between the query and a visit that is not interrupted -----

  /** Whatever has become of a row since it was listed, a visit that is not interrupted amounts to one go at the row
      as it now is, by what was listed. */
  lemma VisitInOneGo(st: RowState, listed: Subscription, now: int, delivered: bool)
    requires listed.expiresAt.Some? && st.jobs.visit.point == AtHop
    requires st.jobs.visit.listed == listed.status && st.jobs.visit.warned == listed.lastWarning
    requires st.jobs.visit.until == listed.expiresAt.value
    ensures var hopped := Step(Traced(st, []), VisitHops, now);
            var end, warning := Step(Step(hopped, VisitSends(delivered), now), VisitRecords, now),
                                Warn(st.row, listed, now, delivered);
            end.st.row == warning.row && end.cycle == SentDays(warning)
  {
  }

  /** The reminder job does not re-read a row it listed as EXPIRING, and moves one it listed as ACTIVE without
      looking at its expiry. If the subscriber renewed in between, the visit leaves the row in order exactly when
      the row was listed as EXPIRING, and the reminder is not delivered or an earlier one makes it unnecessary;
      and it leaves the new period without a reminder on record exactly in the latter two cases. */
  lemma StaleVisitExactly(listed: Subscription, current: Subscription, now: int, delivered: bool)
    requires RowOk(listed, now) && Due(listed, now)
    requires current.status == ACTIVE && current.lastWarning.None?
    requires current.expiresAt.Some? && current.expiresAt.value >= now + PERIOD
    ensures RowOk(Warn(current, listed, now, delivered).row, now) <==>
            listed.status == EXPIRING && (!delivered || NothingToSend(listed, now))
    ensures Warn(current, listed, now, delivered).row.lastWarning.None? <==> !delivered || NothingToSend(listed, now)
  {
    DaysRemainingMeaning(listed.expiresAt.value, now, WARNING_WINDOW_DAYS);
  }

  /** Listed as EXPIRING with two days to go and renewed before the visit: the reminder is sent all the same, and the
      new period starts with a reminder on record: its own reminders for three and two days never go out. */
  lemma StaleVisitSpoilsTheNextCycle(now: int)
    ensures var listed := Subscription(0, EXPIRING, Some(now + 2 * DAY), Some(3));
            var current := ActivatedRow(listed, now);
            var r := Warn(current, listed, now, true).row;
            && Due(listed, now) && RowOk(listed, now) && r.status == ACTIVE && r.lastWarning == Some(2)
            && Delivered(r, now + 29 * DAY, 5) == [1]
  {
    var listed := Subscription(0, EXPIRING, Some(now + 2 * DAY), Some(3));
    DaysRemainingMeaning(now + 2 * DAY, now, 2);
    DaysRemainingMeaning(now + 2 * DAY, now, 1);
    var r := Warn(ActivatedRow(listed, now), listed, now, true).row;
    assert r.expiresAt == Some(now + 32 * DAY);
    DailyReminders(r, now + 29 * DAY, 5);
    assert Countdown(1) == [1] + Countdown(0);
  }
}
