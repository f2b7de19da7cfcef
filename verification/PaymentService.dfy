/** The three ways a payment turns into access, each one transaction. */
module PaymentService {
  import opened Options
  import opened StateMachine
  import opened Rows
  import opened Ledger
  import opened Effects
  import opened Repositories

  method FindOrCreateSubscription(db: Database, user: nat) returns (id: nat)
    modifies db`subs
    ensures IsTarget(old(db.subs), user, |old(db.subs)|, id)
    ensures db.subs == WithTarget(old(db.subs), user, id)
  {
    var live := db.GetActiveOrExpiringForUser(user);
    match live
    case Some(row) =>
      id := row;
    case None =>
      id := db.CreateSubscription(user);
  }

  /** Renews the row: ACTIVE, the expiry moved on, and a fresh reminder cycle. */
  method ActivateRow(db: Database, id: nat, now: int) returns (r: Update)
    requires id < |db.subs|
    modifies db`subs
    ensures r == if CanTransition(old(db.subs)[id].status, ACTIVE) then Updated else InvalidTransition
    ensures db.subs == if r.Updated? then old(db.subs)[id := ActivatedRow(old(db.subs)[id], now)] else old(db.subs)
    ensures r.Updated? ==> ThirtyDaysMore(old(db.subs)[id], db.subs[id], now)
  {
    var expiresAt := Renewed(db.subs[id].expiresAt, now);
    r := db.UpdateStatus(id, ACTIVE, Some(expiresAt));
    if r.Updated? {
      r := db.SetLastWarningDaysLeft(id, None);
    }
  }

  /** The world after a payment was recorded and turned into access on row `target`. */
  lemma ActivatedView(w: World, w': World, telegramId: int, charge: Charge, target: nat)
    requires var s, user := w.store, UserId(w.store.users, telegramId);
             && !Recorded(s.payments, charge) && IsTarget(s.subs, user, |s.subs|, target) && target <= |s.subs|
             && var subs := WithTarget(s.subs, user, target); var row := ActivatedRow(subs[target], w.now);
                w' == w.(store := Store(EnsureUser(s.users, telegramId), subs[target := row],
                                        s.payments + [Payment(target, charge)]),
                         acts := w.acts + [Granted(user, target, w.now, row.expiresAt.value, charge)],
                         jobs := w.jobs[target := JobsRenewed(JobsAt(w.jobs, target))])
    ensures Enabled(w, Activate(telegramId, charge, target)) && w' == Next(w, Activate(telegramId, charge, target))
    ensures Activates(w, w', telegramId, charge, target)
  {
    ActivationActivates(w, telegramId, charge, target);
  }

  /** Records a payment and activates the payer, whom it registers if need be. The result is the activated row,
      or None when the payment was already on record; then nothing at all has changed. */
  method ActivateSubscription(db: Database, now: int, telegramId: int, charge: Charge) returns (r: Option<nat>)
    modifies db
    ensures r.None? <==> Recorded(old(db.payments), charge)
    ensures r.None? ==> db.View(now) == old(db.View(now))
    ensures r.Some? ==> Enabled(old(db.View(now)), Activate(telegramId, charge, r.value))
    ensures r.Some? ==> db.View(now) == Next(old(db.View(now)), Activate(telegramId, charge, r.value))
    ensures r.Some? ==> Activates(old(db.View(now)), db.View(now), telegramId, charge, r.value)
    ensures r.None? <==> !KeyIsFree(old(db.payments), charge)
  {
    var users, subs, payments := db.users, db.subs, db.payments;
    var user := db.GetOrCreateUser(telegramId);
    var id := FindOrCreateSubscription(db, user);
    var created := db.CreatePayment(id, charge);
    if !created {
      // The unique key refused the payment: the transaction rolls back.
      db.users, db.subs, db.payments := users, subs, payments;
      return None;
    }
    var activated := ActivateRow(db, id, now);
    assert activated.Updated?;
    db.acts := db.acts + [Granted(user, id, now, db.subs[id].expiresAt.value, charge)];
    db.jobs := db.jobs[id := JobsRenewed(JobsAt(db.jobs, id))];
    r := Some(id);
    ActivatedView(old(db.View(now)), db.View(now), telegramId, charge, id);
  }

  datatype Confirmation = Confirmed(row: nat) | Missing | AlreadyProcessed

  /** The world after the placeholder's payment was turned into access on row `target`. */
  lemma ConfirmedView(w: World, w': World, pending: nat, target: nat)
    requires Confirmable(w.store, pending) && IsTarget(w.store.subs, w.store.subs[pending].user, pending, target)
    requires var s, charge := w.store, w.store.payments[OwnedBy(w.store.payments, pending).value].charge;
             var row := ActivatedRow(s.subs[target], w.now);
             w' == w.(store := s.(subs := s.subs[target := row],
                                  payments := if target == pending then s.payments
                                              else Repointed(s.payments, pending, target)),
                      acts := w.acts + [Granted(s.subs[pending].user, target, w.now, row.expiresAt.value, charge)],
                      jobs := w.jobs[target := JobsRenewed(JobsAt(w.jobs, target))])
    ensures Enabled(w, Confirm(pending, target)) && w' == Next(w, Confirm(pending, target))
    ensures Confirms(w, w', pending, target)
  {
    ConfirmationConfirms(w, pending, target);
  }

  /** Activates the payment behind a screenshot's placeholder: on the payer's live row if there is one,
      onto which the payment moves, else on the placeholder itself. */
  method ConfirmManualPayment(db: Database, now: int, pending: nat) returns (r: Confirmation)
    modifies db
    ensures r.Missing? <==> pending >= |old(db.subs)|
    ensures r.Confirmed? <==> Confirmable(old(db.View(now)).store, pending)
    ensures r.Confirmed? <==> AwaitsConfirmation(old(db.View(now)).store, pending)
    ensures !r.Confirmed? ==> db.View(now) == old(db.View(now))
    ensures r.Confirmed? ==> Enabled(old(db.View(now)), Confirm(pending, r.row))
    ensures r.Confirmed? ==> db.View(now) == Next(old(db.View(now)), Confirm(pending, r.row))
    ensures r.Confirmed? ==> Confirms(old(db.View(now)), db.View(now), pending, r.row)
  {
    ConfirmableMeans(db.View(now).store, pending);
    if pending >= |db.subs| {
      return Missing;
    }
    var payment := db.GetForSubscription(pending);
    if db.subs[pending].status != PENDING || payment.None? {
      return AlreadyProcessed;
    }
    var user, charge := db.subs[pending].user, db.payments[payment.value].charge;
    var live := db.GetActiveOrExpiringForUser(user);
    if live.Some? && live.value != pending {
      db.RepointSubscription(pending, live.value);
    }
    var target := if live.Some? then live.value else pending;
    var activated := ActivateRow(db, target, now);
    assert activated.Updated?;
    db.acts := db.acts + [Granted(user, target, now, db.subs[target].expiresAt.value, charge)];
    db.jobs := db.jobs[target := JobsRenewed(JobsAt(db.jobs, target))];
    r := Confirmed(target);
    ConfirmedView(old(db.View(now)), db.View(now), pending, target);
  }

  /** The world after a screenshot was taken in. */
  lemma ScreenshotView(w: World, w': World, telegramId: int, charge: Charge, recorded: bool)
    requires var s, i := w.store, |w.store.subs|;
             && (recorded <==> !Recorded(s.payments, charge))
             && w' == w.(store := Store(EnsureUser(s.users, telegramId),
                                        s.subs + [Placeholder(UserId(s.users, telegramId))],
                                        if recorded then s.payments + [Payment(i, charge)] else s.payments),
                         drafts := w.drafts + {i} - {i})
    ensures w' == AfterScreenshot(w, telegramId, charge)
    ensures RecordsScreenshot(w, w', telegramId, charge, |w.store.subs|, recorded)
    ensures var run := [Register(telegramId), Draft(UserId(w.store.users, telegramId)), Attach(|w.store.subs|, charge)];
            Legal(w, run) && w' == Run(w, run)
  {
    var draft := Draft(UserId(w.store.users, telegramId));
    ThreeEvents(w, Register(telegramId), draft, Attach(|w.store.subs|, charge));
    ScreenshotRecords(w, telegramId, charge);
  }

  /** A screenshot arrives: three transactions register the sender, create a placeholder and record its payment.
      When the payment's key is taken the placeholder stays behind, unpaid. */
  method ReceiveScreenshot(db: Database, now: int, telegramId: int, charge: Charge) returns (id: nat, recorded: bool)
    modifies db
    ensures id == |old(db.subs)| && (recorded <==> KeyIsFree(old(db.payments), charge))
    ensures db.payments == if recorded then old(db.payments) + [Payment(id, charge)] else old(db.payments)
    ensures RecordsScreenshot(old(db.View(now)), db.View(now), telegramId, charge, id, recorded)
    ensures db.View(now) == AfterScreenshot(old(db.View(now)), telegramId, charge)
    ensures var run := [Register(telegramId), Draft(UserId(old(db.users), telegramId)), Attach(id, charge)];
            Legal(old(db.View(now)), run) && db.View(now) == Run(old(db.View(now)), run)
  {
    var user := db.GetOrCreateUser(telegramId);
    id := db.CreateSubscription(user);
    db.drafts := db.drafts + {id};
    recorded := db.CreatePayment(id, charge);
    db.drafts := db.drafts - {id};
    ScreenshotView(old(db.View(now)), db.View(now), telegramId, charge, recorded);
  }

  lemma ThreeEvents(w: World, a: Event, b: Event, c: Event)
    requires Enabled(w, a) && Enabled(Next(w, a), b) && Enabled(Next(Next(w, a), b), c)
    ensures Legal(w, [a, b, c]) && Run(w, [a, b, c]) == Next(Next(Next(w, a), b), c)
  {
    RunCons(Next(Next(w, a), b), c, []);
    RunCons(Next(w, a), b, [c] + []);
    RunCons(w, a, [b] + ([c] + []));
    assert [a, b, c] == [a] + ([b] + ([c] + []));
  }
}
