/** What each way to pay does to the tables, spelled out in microseconds and table entries, independently of the
    definitions that the ledger is built from. */
module Effects {
  import opened Options
  import opened StateMachine
  import opened Rows
  import opened Ledger

  /** The row gives its user access. */
  predicate GivesAccess(r: Subscription) {
    r.status == ACTIVE || r.status == EXPIRING
  }

  /** Expiry `a` is no earlier than `b`; a missing one counts as the latest. */
  predicate LastsAsLong(a: Option<int>, b: Option<int>) {
    a.None? || (b.Some? && b.value <= a.value)
  }

  /** No payment has this provider and reference. */
  ghost predicate KeyIsFree(payments: seq<Payment>, charge: Charge) {
    forall k :: 0 <= k < |payments| ==>
      !(payments[k].charge.provider == charge.provider && payments[k].charge.ref == charge.ref)
  }

  /** `after` is `before` made ACTIVE, with thirty days more, counted from its expiry if that lies ahead and from now
      otherwise, and no reminder on record. */
  predicate ThirtyDaysMore(before: Subscription, after: Subscription, now: int) {
    && after.user == before.user && after.status == ACTIVE && after.lastWarning.None? && after.expiresAt.Some?
    && after.expiresAt.value - 2_592_000_000_000 ==
       if before.expiresAt.Some? && before.expiresAt.value > now then before.expiresAt.value else now
  }

  /** A first row: ACTIVE for thirty days from now. */
  predicate FirstThirtyDays(r: Subscription, user: nat, now: int) {
    r == Subscription(user, ACTIVE, Some(now + 2_592_000_000_000), None)
  }

  /** The user with this telegram id, registered if new. */
  predicate Knows(users: seq<int>, users': seq<int>, user: nat, telegramId: int) {
    && user < |users'| && users'[user] == telegramId
    && users' == if telegramId in users then users else users + [telegramId]
  }

  /** Row `row` is the user's row that lasts longest among those that give access, or there is none such. */
  ghost predicate LastsLongest(subs: seq<Subscription>, user: nat, row: nat) {
    && row < |subs| && subs[row].user == user && GivesAccess(subs[row])
    && forall j :: 0 <= j < |subs| && subs[j].user == user && GivesAccess(subs[j]) ==>
         LastsAsLong(subs[row].expiresAt, subs[j].expiresAt)
  }

  ghost predicate HasNoAccess(subs: seq<Subscription>, user: nat) {
    forall j :: 0 <= j < |subs| && subs[j].user == user ==> !GivesAccess(subs[j])
  }

  ghost predicate OthersUntouched(subs: seq<Subscription>, subs': seq<Subscription>, row: nat) {
    |subs| <= |subs'| && forall j :: 0 <= j < |subs| && j != row ==> subs'[j] == subs[j]
  }

  /** Nothing but the tables and the history differs, and the history by one grant of row `row`, as it now is. */
  ghost predicate GrantsRow(before: World, after: World, row: nat, charge: Charge) {
    && after.now == before.now && after.drafts == before.drafts
    && row < |after.store.subs| && after.store.subs[row].expiresAt.Some?
    && var r := after.store.subs[row];
       after.acts == before.acts + [Granted(r.user, row, before.now, r.expiresAt.value, charge)]
  }

  // ----- a paid checkout, or an administrator's grant -----

  /** The payer, registered if need be, has thirty days more on the row that lasted longest, or thirty days on a fresh
      row if none gave access; the payment is on record for that row; everything else is as it was. */
  ghost predicate Activates(before: World, after: World, telegramId: int, charge: Charge, row: nat) {
    var s, s' := before.store, after.store;
    && GrantsRow(before, after, row, charge)
    && var user := s'.subs[row].user;
       && Knows(s.users, s'.users, user, telegramId)
       && KeyIsFree(s.payments, charge) && s'.payments == s.payments + [Payment(row, charge)]
       && OthersUntouched(s.subs, s'.subs, row)
       && if row < |s.subs| then
            |s'.subs| == |s.subs| && LastsLongest(s.subs, user, row)
            && ThirtyDaysMore(s.subs[row], s'.subs[row], before.now)
          else
            row == |s.subs| && |s'.subs| == |s.subs| + 1 && HasNoAccess(s.subs, user)
            && FirstThirtyDays(s'.subs[row], user, before.now)
  }

  lemma LatestLastsLongest(subs: seq<Subscription>, user: nat, row: nat)
    requires LatestLive(subs, user, row)
    ensures LastsLongest(subs, user, row)
  {
    forall j: nat | j < |subs| && subs[j].user == user && GivesAccess(subs[j])
      ensures LastsAsLong(subs[row].expiresAt, subs[j].expiresAt)
    {
      assert LiveRowOf(subs, user, j);
    }
  }

  lemma NoneLiveNoAccess(subs: seq<Subscription>, user: nat)
    requires !HasLive(subs, user)
    ensures HasNoAccess(subs, user)
  {
    forall j: nat | j < |subs| && subs[j].user == user ensures !GivesAccess(subs[j]) {
      assert !LiveRowOf(subs, user, j);
    }
  }

  lemma ActivationActivates(w: World, telegramId: int, charge: Charge, target: nat)
    requires Enabled(w, Activate(telegramId, charge, target)) && !Recorded(w.store.payments, charge)
    ensures Activates(w, Next(w, Activate(telegramId, charge, target)), telegramId, charge, target)
  {
    var user := UserId(w.store.users, telegramId);
    if HasLive(w.store.subs, user) {
      LatestLastsLongest(w.store.subs, user, target);
    } else {
      NoneLiveNoAccess(w.store.subs, user);
    }
  }

  // ----- a screenshot -----

  /** The sender, registered if need be, has a fresh PENDING row; if the key was free, its payment is on record for that
      row, and otherwise nothing is; everything else is as it was. */
  ghost predicate RecordsScreenshot(before: World, after: World, telegramId: int, charge: Charge, row: nat,
                                    recorded: bool) {
    var s, s' := before.store, after.store;
    && row == |s.subs| && |s'.subs| == row + 1 && OthersUntouched(s.subs, s'.subs, row)
    && Knows(s.users, s'.users, s'.subs[row].user, telegramId)
    && s'.subs[row] == Subscription(s'.subs[row].user, PENDING, None, None)
    && (recorded <==> KeyIsFree(s.payments, charge))
    && s'.payments == (if recorded then s.payments + [Payment(row, charge)] else s.payments)
    && after.now == before.now && after.acts == before.acts
  }

  lemma ScreenshotRecords(w: World, telegramId: int, charge: Charge)
    ensures RecordsScreenshot(w, AfterScreenshot(w, telegramId, charge), telegramId, charge, |w.store.subs|,
                              !Recorded(w.store.payments, charge))
  {
  }

  // ----- the confirmation of a screenshot -----

  /** The owner of the placeholder has thirty days more on the row that lasted longest, or on the placeholder itself
      if none gave access; all of the placeholder's payments are now that row's; everything else is as it was.
      The grant is for the placeholder's first payment. */
  ghost predicate Confirms(before: World, after: World, pending: nat, row: nat) {
    var s, s' := before.store, after.store;
    && pending < |s.subs| && s.subs[pending].status == PENDING
    && row < |s.subs| == |s'.subs| && s'.users == s.users && OthersUntouched(s.subs, s'.subs, row)
    && ThirtyDaysMore(s.subs[row], s'.subs[row], before.now)
    && (LastsLongest(s.subs, s.subs[pending].user, row)
        || (row == pending && HasNoAccess(s.subs, s.subs[pending].user)))
    && |s'.payments| == |s.payments|
    && (forall k :: 0 <= k < |s.payments| ==>
          s'.payments[k] == Payment(if s.payments[k].sub == pending then row else s.payments[k].sub,
                                    s.payments[k].charge))
    && exists k :: 0 <= k < |s.payments| && FirstPaymentOf(s.payments, pending, k)
                   && GrantsRow(before, after, row, s.payments[k].charge)
  }

  /** The row is a placeholder that a payment points at. */
  ghost predicate AwaitsConfirmation(s: Store, row: nat) {
    && row < |s.subs| && s.subs[row].status == PENDING
    && exists k :: 0 <= k < |s.payments| && s.payments[k].sub == row
  }

  lemma ConfirmableMeans(s: Store, row: nat)
    ensures Confirmable(s, row) <==> AwaitsConfirmation(s, row)
  {
  }

  ghost predicate FirstPaymentOf(payments: seq<Payment>, row: nat, k: nat) {
    k < |payments| && payments[k].sub == row && forall j :: 0 <= j < k ==> payments[j].sub != row
  }

  lemma ConfirmationConfirms(w: World, pending: nat, target: nat)
    requires Confirmable(w.store, pending) && Enabled(w, Confirm(pending, target))
    ensures Confirms(w, Next(w, Confirm(pending, target)), pending, target)
  {
    var s, user := w.store, w.store.subs[pending].user;
    if HasLive(s.subs, user) {
      LatestLastsLongest(s.subs, user, target);
    } else {
      NoneLiveNoAccess(s.subs, user);
    }
    var k := OwnedBy(s.payments, pending).value;
    assert FirstPaymentOf(s.payments, pending, k);
    assert GrantsRow(w, Next(w, Confirm(pending, target)), target, s.payments[k].charge);
  }
}
