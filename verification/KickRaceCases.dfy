/** Every way in which a paid-up subscriber comes to be banned does occur, and so does the loss of paid days
    that can follow: one short run for each. */
module KickRaceCases {
  import opened Options
  import opened Clock
  import opened StateMachine
  import opened Rows
  import opened Ledger
  import opened Invariants
  import opened PaidTime
  import opened KickRace

  /** A subscriber whose only row expires at instant zero. */
  function OneSubscriber(status: Status, now: int): World {
    var row := Subscription(0, status, Some(0), None);
    var first := Charge("stripe", "cs_1", 4500, "PLN");
    World(Store([7], [row], [Payment(0, first)]), now, {}, [], map[0 := RestingJobs(row)])
  }

  /** The subscriber's next payment; `target` is the row it renews. */
  function NextPayment(target: nat): Event {
    Activate(7, Charge("stripe", "cs_2", 4500, "PLN"), target)
  }

  /** Yet another payment, on a fresh row. */
  function LaterPayment(): Event {
    Activate(7, Charge("stripe", "cs_3", 4500, "PLN"), 1)
  }

  /** The table is the subscriber's one row, in the given state, and the next payment is still to come, or is made. */
  ghost predicate Single(w: World, st: RowState, now: int, paid: bool) {
    && w.store.users == [7] && w.store.subs == [st.row] && st.row.user == 0 && JobsAt(w.jobs, 0) == st.jobs
    && w.now == now && (!paid ==> !Recorded(w.store.payments, NextPayment(0).charge))
    && !Recorded(w.store.payments, LaterPayment().charge)
  }

  lemma OneSubscriberIsOk(status: Status, now: int)
    requires IsLive(status) && now >= 0
    ensures var w := OneSubscriber(status, now);
            && Inv(w) && RowsSound(w) && ChecksOk(w)
            && Single(w, RowState(w.store.subs[0], RestingJobs(w.store.subs[0])), now, false)
  {
    var w := OneSubscriber(status, now);
    assert OwnedBy(w.store.payments, 0).Some?;
    assert RowOk(w.store.subs[0], now);
    assert "cs_1"[3] != "cs_2"[3] && "cs_1"[3] != "cs_3"[3];
  }

  lemma Extend(w: World, run: seq<Event>, e: Event)
    requires Legal(w, run) && Enabled(Run(w, run), e)
    ensures Legal(w, run + [e]) && Run(w, run + [e]) == Next(Run(w, run), e)
  {
    OneStep(Run(w, run), e);
    RunConcat(w, run, [e]);
  }

  /** The run goes on with a listing, or a hop of either job. */
  lemma JobStep(w: World, run: seq<Event>, st: RowState, e: Event, ev: RowEvent, now: int, paid: bool)
    requires Legal(w, run) && Single(Run(w, run), st, now, paid) && CanRow(st, ev, now)
    requires (e == TakeDue(0) && ev == TakenDue) || (e == VisitHop(0) && ev == VisitHops)
          || (e == TakeExpired(0) && ev == TakenExpired) || (e == KickStep(0) && ev == KickHops)
    ensures Legal(w, run + [e]) && Single(Run(w, run + [e]), RowAfter(st, ev, now), now, paid)
  {
    Extend(w, run, e);
  }

  lemma PaymentStep(w: World, run: seq<Event>, st: RowState, now: int)
    requires Legal(w, run) && Single(Run(w, run), st, now, false) && IsLive(st.row.status)
    ensures Legal(w, run + [NextPayment(0)])
    ensures Single(Run(w, run + [NextPayment(0)]), RowAfter(st, Renew, now), now, true)
  {
    var w' := Run(w, run);
    assert UserId(w'.store.users, 7) == 0;
    assert LiveRowOf(w'.store.subs, 0, 0);
    assert "cs_2"[3] != "cs_3"[3];
    Extend(w, run, NextPayment(0));
  }

  lemma TimePasses(w: World, run: seq<Event>, st: RowState, now: int, later: int, paid: bool)
    requires Legal(w, run) && Single(Run(w, run), st, now, paid) && now <= later
    ensures Legal(w, run + [Tick(later)]) && Single(Run(w, run + [Tick(later)]), st, later, paid)
  {
    Extend(w, run, Tick(later));
  }

  /** With the row at the second hop, EXPIRING, and the expiry ahead, its owner is banned although they are paid up. */
  lemma WalkedToBan(w: World) returns (run: seq<Event>)
    requires w.store.users == [7] && |w.store.subs| == 1 && KickAt(w, 0).point == AtSecondHop
    requires var r := w.store.subs[0];
             r.user == 0 && r.status == EXPIRING && r.expiresAt.Some? && r.expiresAt.value > w.now
    ensures Legal(w, run) && |Run(w, run).store.subs| == 1 && Run(w, run).store.subs[0].user == 0
    ensures KickAt(Run(w, run), 0).point == Banned && PaidUp(Run(w, run), 0)
  {
    run := CloseAlone(w, 0);
    var closed := Run(w, run);
    assert !AccessSeen(closed.store.subs, 0, closed.now);
    StepAlone(closed, KickStep(0), 0);
    var checked := Next(closed, KickStep(0));
    var more := BanAlone(checked, 0);
    RunConcat(closed, [KickStep(0)], more);
    RunConcat(w, run, [KickStep(0)] + more);
    run := run + ([KickStep(0)] + more);
    assert Run(w, run).store.subs[0].expiresAt == w.store.subs[0].expiresAt;
  }

  /** The run starts with `first`, and bans a paid-up subscriber. */
  ghost predicate BansPaidUp(w: World, first: seq<Event>, run: seq<Event>) {
    && Inv(w) && RowsSound(w) && ChecksOk(w) && first <= run && Legal(w, run)
    && var w' := Run(w, run);
       exists i: nat :: i < |w'.store.subs| && KickAt(w', i).point == Banned && PaidUp(w', w'.store.subs[i].user)
  }

  /** With the row walked this far although it lies ahead, the ban follows. */
  lemma ThenBans(w: World, first: seq<Event>, st: RowState, now: int) returns (run: seq<Event>)
    requires Inv(w) && RowsSound(w) && ChecksOk(w) && Legal(w, first) && Single(Run(w, first), st, now, true)
    requires st.jobs.kick.point == AtSecondHop && st.row.status == EXPIRING
    requires st.row.expiresAt.Some? && st.row.expiresAt.value > now
    ensures BansPaidUp(w, first, run)
  {
    var rest := WalkedToBan(Run(w, first));
    RunConcat(w, first, rest);
    run := first + rest;
    var w' := Run(w, run);
    assert KickAt(w', 0).point == Banned && PaidUp(w', w'.store.subs[0].user);
  }

  lemma RemovalListsThenRenewal(w: World, run: seq<Event>, st: RowState) returns (st': RowState)
    requires Legal(w, run) && Single(Run(w, run), st, 1, false) && IsLive(st.row.status) && st.row.expiresAt == Some(0)
    ensures Legal(w, run + [TakeExpired(0)] + [NextPayment(0)])
    ensures Single(Run(w, run + [TakeExpired(0)] + [NextPayment(0)]), st', 1, true)
    ensures st'.row == Subscription(0, ACTIVE, Some(1 + PERIOD), None)
    ensures st'.jobs.kick.point == if st.row.status == ACTIVE then AtFirstHop else AtSecondHop
    ensures st'.jobs.visit.point == st.jobs.visit.point
  {
    JobStep(w, run, st, TakeExpired(0), TakenExpired, 1, false);
    st' := RowAfter(st, TakenExpired, 1);
    PaymentStep(w, run + [TakeExpired(0)], st', 1);
    st' := RowAfter(st', Renew, 1);
  }

  /** The table is the subscriber's row with the given status, which expired, or expires, at instant zero. */
  ghost predicate Begins(w: World, st: RowState, status: Status, now: int) {
    && Inv(w) && RowsSound(w) && ChecksOk(w) && Single(w, st, now, false)
    && st.row == Subscription(0, status, Some(0), None) && st.jobs.visit.point.Resting?
  }

  lemma OneSubscriberBegins(status: Status, now: int) returns (st: RowState)
    requires IsLive(status) && now >= 0
    ensures Begins(OneSubscriber(status, now), st, status, now)
  {
    var w := OneSubscriber(status, now);
    OneSubscriberIsOk(status, now);
    st := RowState(w.store.subs[0], RestingJobs(w.store.subs[0]));
  }

  lemma RaceEvents()
    ensures [] + [TakeExpired(0)] + [NextPayment(0)] + [KickStep(0)] == [TakeExpired(0), NextPayment(0), KickStep(0)]
  {
  }

  lemma FirstHopAfterRenewal(w: World, run: seq<Event>, st: RowState) returns (st': RowState)
    requires Legal(w, run) && Single(Run(w, run), st, 1, true)
    requires st.row.status == ACTIVE && st.jobs.kick.point == AtFirstHop
    ensures Legal(w, run + [KickStep(0)]) && Single(Run(w, run + [KickStep(0)]), st', 1, true)
    ensures st'.row == st.row.(status := EXPIRING) && st'.jobs.kick.point == AtSecondHop
  {
    JobStep(w, run, st, KickStep(0), KickHops, 1, true);
    st' := RowAfter(st, KickHops, 1);
  }

  lemma RaceFrom(w: World, st0: RowState) returns (run: seq<Event>)
    requires Begins(w, st0, ACTIVE, 1)
    ensures BansPaidUp(w, [TakeExpired(0), NextPayment(0), KickStep(0)], run)
  {
    var st := RemovalListsThenRenewal(w, [], st0);
    var first := [] + [TakeExpired(0)] + [NextPayment(0)];
    st := FirstHopAfterRenewal(w, first, st);
    first := first + [KickStep(0)];
    RaceEvents();
    run := ThenBans(w, first, st, 1);
  }

  /** Listed as ACTIVE and renewed before the first hop: a subscriber with thirty days to go is banned. */
  lemma RaceRemovesAPaidUpSubscriber() returns (run: seq<Event>)
    ensures BansPaidUp(OneSubscriber(ACTIVE, 1), [TakeExpired(0), NextPayment(0), KickStep(0)], run)
  {
    var st := OneSubscriberBegins(ACTIVE, 1);
    run := RaceFrom(OneSubscriber(ACTIVE, 1), st);
  }

  /** The row is EXPIRING and past its expiry at both jobs: listed as ACTIVE for a visit that is still to hop,
      and one hop into its removal. */
  predicate BetweenJobs(st: RowState) {
    && st.row == Subscription(0, EXPIRING, Some(0), None)
    && st.jobs.visit == Visit(AtHop, ACTIVE, 0, None, false, false)
    && st.jobs.kick.point == AtSecondHop
  }

  lemma ReminderListsFirst(w: World, run: seq<Event>, st: RowState) returns (st': RowState)
    requires Legal(w, run) && Single(Run(w, run), st, 0, false) && st.row == Subscription(0, ACTIVE, Some(0), None)
    requires st.jobs.visit.point.Resting?
    ensures Legal(w, run + [TakeDue(0)] + [Tick(1)])
    ensures Single(Run(w, run + [TakeDue(0)] + [Tick(1)]), st', 1, false)
    ensures st'.row == st.row && st'.jobs.visit == Visit(AtHop, ACTIVE, 0, None, false, false)
  {
    JobStep(w, run, st, TakeDue(0), TakenDue, 0, false);
    st' := RowAfter(st, TakenDue, 0);
    TimePasses(w, run + [TakeDue(0)], st', 0, 1, false);
  }

  lemma RemovalHopsFirst(w: World, run: seq<Event>, st: RowState) returns (st': RowState)
    requires Legal(w, run) && Single(Run(w, run), st, 1, false) && st.row == Subscription(0, ACTIVE, Some(0), None)
    ensures Legal(w, run + [TakeExpired(0)] + [KickStep(0)])
    ensures Single(Run(w, run + [TakeExpired(0)] + [KickStep(0)]), st', 1, false)
    ensures st'.row == st.row.(status := EXPIRING) && st'.jobs.visit == st.jobs.visit
    ensures st'.jobs.kick.point == AtSecondHop
  {
    JobStep(w, run, st, TakeExpired(0), TakenExpired, 1, false);
    st' := RowAfter(st, TakenExpired, 1);
    JobStep(w, run + [TakeExpired(0)], st', KickStep(0), KickHops, 1, false);
    st' := RowAfter(st', KickHops, 1);
  }

  lemma ReminderHopsLate(w: World, first: seq<Event>, st: RowState) returns (st': RowState)
    requires Legal(w, first) && Single(Run(w, first), st, 1, false) && BetweenJobs(st)
    ensures Legal(w, first + [NextPayment(0)] + [VisitHop(0)])
    ensures Single(Run(w, first + [NextPayment(0)] + [VisitHop(0)]), st', 1, true)
    ensures st'.row == Subscription(0, EXPIRING, Some(1 + PERIOD), None)
    ensures st'.jobs.kick.point == AtSecondHop
  {
    PaymentStep(w, first, st, 1);
    st' := RowAfter(st, Renew, 1);
    DaysRemainingMeaning(0, 1, 1);
    JobStep(w, first + [NextPayment(0)], st', VisitHop(0), VisitHops, 1, true);
    st' := RowAfter(st', VisitHops, 1);
  }

  lemma LateReminderEvents()
    ensures [] + [TakeDue(0)] + [Tick(1)] + [TakeExpired(0)] + [KickStep(0)] + [NextPayment(0)] + [VisitHop(0)] ==
            [TakeDue(0), Tick(1), TakeExpired(0), KickStep(0), NextPayment(0), VisitHop(0)]
  {
  }

  lemma LateReminderFrom(w: World, st0: RowState) returns (run: seq<Event>)
    requires Begins(w, st0, ACTIVE, 0)
    ensures BansPaidUp(w, [TakeDue(0), Tick(1), TakeExpired(0), KickStep(0), NextPayment(0), VisitHop(0)], run)
  {
    var st := ReminderListsFirst(w, [], st0);
    var first := [] + [TakeDue(0)] + [Tick(1)];
    st := RemovalHopsFirst(w, first, st);
    first := first + [TakeExpired(0)] + [KickStep(0)];
    st := ReminderHopsLate(w, first, st);
    first := first + [NextPayment(0)] + [VisitHop(0)];
    LateReminderEvents();
    run := ThenBans(w, first, st, 1);
  }

  /** Put back to EXPIRING by a reminder visit that listed the row as ACTIVE while it was due, and hopped only after the
      renewal: a subscriber with thirty days to go is banned, within a microsecond. */
  lemma LateReminderRemovesAPaidUpSubscriber() returns (run: seq<Event>)
    ensures BansPaidUp(OneSubscriber(ACTIVE, 0), [TakeDue(0), Tick(1), TakeExpired(0), KickStep(0), NextPayment(0),
                                                  VisitHop(0)], run)
  {
    var st := OneSubscriberBegins(ACTIVE, 0);
    run := LateReminderFrom(OneSubscriber(ACTIVE, 0), st);
  }

  /** The earliest instant at which a period renewed at instant one is due for its reminders. */
  const NEXT_REMINDERS: int := 1 + (SUBSCRIPTION_DAYS - WARNING_WINDOW_DAYS) * DAY

  /** The reminder job takes the renewed row up when its time has come, and moves it. */
  lemma ReminderMovesRenewed(w: World, run: seq<Event>, st: RowState) returns (st': RowState)
    requires Legal(w, run) && Single(Run(w, run), st, NEXT_REMINDERS, true)
    requires st.row == Subscription(0, ACTIVE, Some(1 + PERIOD), None)
    requires st.jobs.kick.point == AtSecondHop && st.jobs.visit.point.Resting?
    ensures Legal(w, run + [TakeDue(0)] + [VisitHop(0)])
    ensures Single(Run(w, run + [TakeDue(0)] + [VisitHop(0)]), st', NEXT_REMINDERS, true)
    ensures st'.row == st.row.(status := EXPIRING) && st'.jobs.kick.point == AtSecondHop
  {
    DaysRemainingMeaning(1 + PERIOD, NEXT_REMINDERS, WARNING_WINDOW_DAYS);
    JobStep(w, run, st, TakeDue(0), TakenDue, NEXT_REMINDERS, true);
    st' := RowAfter(st, TakenDue, NEXT_REMINDERS);
    JobStep(w, run + [TakeDue(0)], st', VisitHop(0), VisitHops, NEXT_REMINDERS, true);
    st' := RowAfter(st', VisitHops, NEXT_REMINDERS);
  }

  lemma SlowRunEvents()
    ensures [] + [TakeExpired(0)] + [NextPayment(0)] + [Tick(NEXT_REMINDERS)] + [TakeDue(0)] + [VisitHop(0)] ==
            [TakeExpired(0), NextPayment(0), Tick(NEXT_REMINDERS), TakeDue(0), VisitHop(0)]
  {
  }

  lemma SlowRunFrom(w: World, st0: RowState) returns (run: seq<Event>)
    requires Begins(w, st0, EXPIRING, 1)
    ensures BansPaidUp(w, [TakeExpired(0), NextPayment(0), Tick(NEXT_REMINDERS), TakeDue(0), VisitHop(0)], run)
  {
    var st := RemovalListsThenRenewal(w, [], st0);
    var first := [] + [TakeExpired(0)] + [NextPayment(0)];
    TimePasses(w, first, st, 1, NEXT_REMINDERS, true);
    first := first + [Tick(NEXT_REMINDERS)];
    st := ReminderMovesRenewed(w, first, st);
    first := first + [TakeDue(0)] + [VisitHop(0)];
    SlowRunEvents();
    run := ThenBans(w, first, st, NEXT_REMINDERS);
  }

  /** A removal job held up for 27 days meets the row in the reminder window of its renewed period, and closes it. */
  lemma SlowRunRemovesAPaidUpSubscriber() returns (run: seq<Event>)
    ensures BansPaidUp(OneSubscriber(EXPIRING, 1), [TakeExpired(0), NextPayment(0), Tick(NEXT_REMINDERS), TakeDue(0),
                                                    VisitHop(0)], run)
  {
    var st := OneSubscriberBegins(EXPIRING, 1);
    run := SlowRunFrom(OneSubscriber(EXPIRING, 1), st);
  }

  lemma TwoHops(w: World) returns (run: seq<Event>)
    requires |w.store.subs| == 1 && w.store.subs[0].status == EXPIRING && KickAt(w, 0).point == AtSecondHop
    ensures run == [KickStep(0), KickStep(0)] && Legal(w, run)
    ensures OnlyKick(w, Run(w, run), 0, w.store.subs[0].(status := KICKED), AtCheck)
  {
    var r := w.store.subs[0];
    HopAlone(w, 0);
    OneStep(w, KickStep(0));
    var hopped := Next(w, KickStep(0));
    HopAlone(hopped, 0);
    OnlyKickTwice(w, hopped, Next(hopped, KickStep(0)), 0, r.(status := EXPIRED), r.(status := KICKED), AtThirdHop,
                  AtCheck);
    Extend(w, [KickStep(0)], KickStep(0));
    run := [KickStep(0)] + [KickStep(0)];
  }

  /** The row is closed, its owner has no other, and the job is about to look at row 0 again or to ban. */
  ghost predicate Unserved(w: World, point: KickPoint) {
    && w.store.users == [7] && w.now == 1 && !Recorded(w.store.payments, NextPayment(0).charge)
    && w.store.subs == [Subscription(0, KICKED, Some(0), None)] && KickAt(w, 0).point == point
  }

  lemma OnlyListed(w: World, st: RowState)
    requires Single(w, st, 1, false) && st.row == Subscription(0, EXPIRING, Some(0), None)
    ensures Legal(w, [TakeExpired(0)])
    ensures var listed := Run(w, [TakeExpired(0)]);
            Single(listed, RowAfter(st, TakenExpired, 1), 1, false) && KickAt(listed, 0).point == AtSecondHop
  {
    JobStep(w, [], st, TakeExpired(0), TakenExpired, 1, false);
    assert [] + [TakeExpired(0)] == [TakeExpired(0)];
  }

  lemma ClosedAndUnserved(w: World, st: RowState) returns (run: seq<Event>)
    requires Single(w, st, 1, false) && st.row == Subscription(0, EXPIRING, Some(0), None)
    ensures run == [TakeExpired(0), KickStep(0), KickStep(0)] && Legal(w, run) && Unserved(Run(w, run), AtCheck)
  {
    OnlyListed(w, st);
    var listed := Run(w, [TakeExpired(0)]);
    var hops := TwoHops(listed);
    RunConcat(w, [TakeExpired(0)], hops);
    run := [TakeExpired(0)] + hops;
  }

  lemma NoAccessFound(w: World, run: seq<Event>)
    requires Legal(w, run) && Unserved(Run(w, run), AtCheck)
    ensures Legal(w, run + [KickStep(0)]) && Unserved(Run(w, run + [KickStep(0)]), AtLookup)
  {
    var w' := Run(w, run);
    assert !HasLive(w'.store.subs, 0);
    StepAlone(w', KickStep(0), 0);
    Extend(w, run, KickStep(0));
  }

  /** Access of the user's, on a row of its own, while the job is about to look up the owner of row 0. */
  ghost predicate ServedMeanwhile(w: World) {
    && |w.store.subs| == 2 && w.store.subs[0].user == 0 && w.store.subs[1].user == 0
    && w.store.subs[1].expiresAt.Some? && w.store.subs[1].expiresAt.value > w.now && KickAt(w, 0).point == AtLookup
  }

  lemma PaysOnAFreshRow(w: World, run: seq<Event>)
    requires Legal(w, run) && Unserved(Run(w, run), AtLookup)
    ensures Legal(w, run + [NextPayment(1)]) && ServedMeanwhile(Run(w, run + [NextPayment(1)]))
  {
    var w' := Run(w, run);
    assert UserId(w'.store.users, 7) == 0;
    assert !HasLive(w'.store.subs, 0);
    Extend(w, run, NextPayment(1));
  }

  lemma BansServed(w: World, first: seq<Event>) returns (run: seq<Event>)
    requires Inv(w) && RowsSound(w) && ChecksOk(w) && Legal(w, first) && ServedMeanwhile(Run(w, first))
    ensures BansPaidUp(w, first, run)
  {
    var rest := BanAlone(Run(w, first), 0);
    RunConcat(w, first, rest);
    run := first + rest;
    var w' := Run(w, run);
    assert w'.store.subs[1] == Run(w, first).store.subs[1];
    assert KickAt(w', 0).point == Banned && PaidUp(w', w'.store.subs[0].user);
  }

  lemma PaymentEvents()
    ensures [TakeExpired(0), KickStep(0), KickStep(0)] + [KickStep(0)] + [NextPayment(1)] ==
            [TakeExpired(0), KickStep(0), KickStep(0), KickStep(0), NextPayment(1)]
  {
  }

  lemma PaymentAfterTheCheckFrom(w: World, st0: RowState) returns (run: seq<Event>)
    requires Begins(w, st0, EXPIRING, 1)
    ensures BansPaidUp(w, [TakeExpired(0), KickStep(0), KickStep(0), KickStep(0), NextPayment(1)], run)
  {
    var first := ClosedAndUnserved(w, st0);
    NoAccessFound(w, first);
    first := first + [KickStep(0)];
    PaysOnAFreshRow(w, first);
    first := first + [NextPayment(1)];
    PaymentEvents();
    run := BansServed(w, first);
  }

  /** Paid for between the check and the ban, on a fresh row: banned all the same. */
  lemma PaymentAfterTheCheckIsNotSeen() returns (run: seq<Event>)
    ensures BansPaidUp(OneSubscriber(EXPIRING, 1), [TakeExpired(0), KickStep(0), KickStep(0), KickStep(0),
                                                    NextPayment(1)], run)
  {
    var st := OneSubscriberBegins(EXPIRING, 1);
    run := PaymentAfterTheCheckFrom(OneSubscriber(EXPIRING, 1), st);
  }

  lemma WalkedAheadOutranks(w: World, user: nat)
    requires WalkedAhead(w, user) && !HasLive(w.store.subs, user)
    ensures Outranked(w.store.subs, user, w.now)
  {
    var subs := w.store.subs;
    var i: nat :| i < |subs| && subs[i].user == user && WalkedThoughRenewed(StateOf(w, i))
                  && subs[i].expiresAt.Some? && subs[i].expiresAt.value > w.now;
    assert NoLiveRowReaches(subs, user, subs[i].expiresAt.value);
  }

  /** Whoever buys again after their renewed row was closed is granted thirty days from now, although they are paid for
      longer: the days already paid for are lost to the second purchase. */
  lemma WalkedRowsCostPaidDays(w: World, e: Event, user: nat)
    requires Inv(w) && RowsSound(w) && Enabled(w, e) && Buyer(w, e) == Some(user)
    requires WalkedAhead(w, user) && !HasLive(w.store.subs, user)
    ensures var p, p' := PaidUntil(w.store.subs, user), PaidUntil(Next(w, e).store.subs, user);
            p'.Some? && p'.value < Buy(p, w.now).value
  {
    WalkedAheadOutranks(w, user);
    BuyerStep(w, e);
  }

  lemma LastTwoHops(w: World, run: seq<Event>, st: RowState) returns (st': RowState)
    requires Legal(w, run) && Single(Run(w, run), st, 1, true)
    requires st.row.status == EXPIRING && st.jobs.kick.point == AtSecondHop
    ensures Legal(w, run + [KickStep(0)] + [KickStep(0)])
    ensures Single(Run(w, run + [KickStep(0)] + [KickStep(0)]), st', 1, true)
    ensures st'.row == st.row.(status := KICKED)
  {
    JobStep(w, run, st, KickStep(0), KickHops, 1, true);
    st' := RowAfter(st, KickHops, 1);
    JobStep(w, run + [KickStep(0)], st', KickStep(0), KickHops, 1, true);
    st' := RowAfter(st', KickHops, 1);
  }

  /** Listed as ACTIVE, renewed, and closed. */
  lemma RenewedAndClosed(w: World, st0: RowState) returns (first: seq<Event>)
    requires Begins(w, st0, ACTIVE, 1)
    ensures first == [TakeExpired(0), NextPayment(0), KickStep(0), KickStep(0), KickStep(0)] && Legal(w, first)
    ensures var w' := Run(w, first);
            && w'.store.users == [7] && w'.now == 1 && !Recorded(w'.store.payments, LaterPayment().charge)
            && w'.store.subs == [Subscription(0, KICKED, Some(1 + PERIOD), None)]
  {
    var st := RemovalListsThenRenewal(w, [], st0);
    first := [] + [TakeExpired(0)] + [NextPayment(0)];
    st := FirstHopAfterRenewal(w, first, st);
    first := first + [KickStep(0)];
    st := LastTwoHops(w, first, st);
    first := first + [KickStep(0)] + [KickStep(0)];
    ClosedEvents();
  }

  lemma ClosedEvents()
    ensures [] + [TakeExpired(0)] + [NextPayment(0)] + [KickStep(0)] + [KickStep(0)] + [KickStep(0)] ==
            [TakeExpired(0), NextPayment(0), KickStep(0), KickStep(0), KickStep(0)]
  {
  }

  /** The next purchase is made while the closed row lies ahead: it is outranked, and buys no further day. */
  lemma BuysInVain(w: World)
    requires WellFormed(w) && w.store.users == [7] && w.now == 1
    requires !Recorded(w.store.payments, LaterPayment().charge)
    requires w.store.subs == [Subscription(0, KICKED, Some(1 + PERIOD), None)]
    ensures Enabled(w, LaterPayment()) && Buyer(w, LaterPayment()) == Some(0)
    ensures Outranked(w.store.subs, 0, 1)
    ensures PaidUntil(Next(w, LaterPayment()).store.subs, 0) == PaidUntil(w.store.subs, 0) == Some(1 + PERIOD)
  {
    var subs := w.store.subs;
    assert UserId(w.store.users, 7) == 0;
    assert !HasLive(subs, 0);
    assert NoLiveRowReaches(subs, 0, subs[0].expiresAt.value);
    var subs' := Next(w, LaterPayment()).store.subs;
    assert subs'[0] == subs[0] && subs'[1].expiresAt == Some(1 + PERIOD);
    PaidUntilIsUnique(subs, 0, PaidUntil(subs, 0), Some(1 + PERIOD));
    PaidUntilIsUnique(subs', 0, PaidUntil(subs', 0), Some(1 + PERIOD));
  }

  lemma PaidDaysAreLostFrom(w: World, st0: RowState) returns (run: seq<Event>)
    requires Begins(w, st0, ACTIVE, 1) && w.acts == []
    ensures run == [TakeExpired(0), NextPayment(0), KickStep(0), KickStep(0), KickStep(0), LaterPayment()]
    ensures Legal(w, run) && !StaysInFront(w, run, 0)
    ensures PaidUntil(Run(w, run).store.subs, 0) == Some(1 + PERIOD)
  {
    var first := RenewedAndClosed(w, st0);
    var closed := Run(w, first);
    RunKeepsInv(w, first);
    BuysInVain(closed);
    OneStep(closed, LaterPayment());
    StaysInFrontOverBoth(w, first, [LaterPayment()], 0);
    RunConcat(w, first, [LaterPayment()]);
    run := first + [LaterPayment()];
  }

  /** A run on which one number per user fails. A subscriber pays, is closed all the same, and pays again at the same
      instant: two payments, and paid for thirty days. The table agrees with the scalar at the start, but not
      throughout. */
  lemma PaidDaysAreLost() returns (run: seq<Event>)
    ensures run == [TakeExpired(0), NextPayment(0), KickStep(0), KickStep(0), KickStep(0), LaterPayment()]
    ensures var w := OneSubscriber(ACTIVE, 1); var start := PaidUntil(w.store.subs, 0);
            && Inv(w) && RowsSound(w) && Legal(w, run)
            && AgreesWithScalar(w, 0, start) && Chronological(w, 0)
            && !StaysInFront(w, run, 0) && !AgreesThroughout(w, run, 0, start)
            && PaidUntil(Run(w, run).store.subs, 0) == Some(1 + PERIOD)
  {
    var w := OneSubscriber(ACTIVE, 1);
    var st := OneSubscriberBegins(ACTIVE, 1);
    run := PaidDaysAreLostFrom(w, st);
    RunRefinesScalar(w, run, 0, PaidUntil(w.store.subs, 0));
  }
}
