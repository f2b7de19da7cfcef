/** Every payment counts exactly once: none is lost or moved to another user, and none activates twice. */
module Accounting {
  import opened Options
  import opened StateMachine
  import opened Ledger
  import opened Effects
  import opened Invariants
  import opened PaidTime

  // ----- payments persist -----

  /** The payment with id `k` is still there, unaltered, and still belongs to the same user. */
  ghost predicate SamePayment(s: Store, s': Store, k: nat)
    requires k < |s.payments| && s.payments[k].sub < |s.subs|
  {
    && k < |s'.payments| && s'.payments[k].charge == s.payments[k].charge
    && s'.payments[k].sub < |s'.subs|
    && s'.subs[s'.payments[k].sub].user == s.subs[s.payments[k].sub].user
  }

  lemma StepKeepsPayment(w: World, e: Event, k: nat)
    requires WellFormed(w) && Enabled(w, e) && k < |w.store.payments|
    ensures SamePayment(w.store, Next(w, e).store, k)
  {
    RowFrame(w, e, w.store.payments[k].sub);
    if e.Confirm? && Confirmable(w.store, e.row) {
      RowFrame(w, e, e.target);
    }
  }

  /** Over every run payments are never lost, altered, or moved to another user. */
  lemma {:induction false} PaymentsPersist(w: World, run: seq<Event>, k: nat)
    requires WellFormed(w) && Legal(w, run) && k < |w.store.payments|
    ensures SamePayment(w.store, Run(w, run).store, k)
    decreases |run|
  {
    if run != [] {
      StepKeepsPayment(w, run[0], k);
      StepKeepsWellFormed(w, run[0]);
      PaymentsPersist(Next(w, run[0]), run[1..], k);
    }
  }

  // ----- one activation per payment -----

  /** Payment `k` has been turned into access for the user: its row is past PENDING. */
  ghost predicate Spent(s: Store, user: nat, k: nat) {
    && k < |s.payments| && s.payments[k].sub < |s.subs|
    && s.subs[s.payments[k].sub].status != PENDING && s.subs[s.payments[k].sub].user == user
  }

  ghost function SpentPayments(s: Store, user: nat): set<nat> {
    set k: nat | k < |s.payments| && Spent(s, user, k)
  }

  /** The payment an event turns into access, if any. */
  ghost function PaymentOf(w: World, e: Event): nat
    requires Enabled(w, e) && Buyer(w, e).Some?
  {
    if e.Activate? then |w.store.payments| else OwnedBy(w.store.payments, e.row).value
  }

  /** The entry of the history for an activation: whom, on which row, when, until when, and for which payment. */
  ghost function GrantFor(w: World, e: Event): Act
    requires WellFormed(w) && Enabled(w, e) && Buyer(w, e).Some?
  {
    var s', row := Next(w, e).store, RenewedRow(w, e).value;
    Granted(Buyer(w, e).value, row, w.now, s'.subs[row].expiresAt.value, s'.payments[PaymentOf(w, e)].charge)
  }

  /** An activation spends one payment that was not spent before, and names it in the history;
      no other event spends or restores any. */
  lemma StepSpends(w: World, e: Event, user: nat)
    requires WellFormed(w) && PaymentsOk(w.store) && Enabled(w, e)
    ensures var before, after := SpentPayments(w.store, user), SpentPayments(Next(w, e).store, user);
            if Buyer(w, e) == Some(user) then
              && PaymentOf(w, e) !in before && after == before + {PaymentOf(w, e)}
              && Next(w, e).acts == w.acts + [GrantFor(w, e)]
            else after == before
  {
    var s, s' := w.store, Next(w, e).store;
    forall k: nat | k < |s'.payments|
      ensures Spent(s', user, k) <==> Spent(s, user, k) || (Buyer(w, e) == Some(user) && k == PaymentOf(w, e))
    {
      SpentStep(w, e, user, k);
    }
    if Buyer(w, e) == Some(user) {
      NotYetSpent(w, e);
      HistoryNamesGrant(w, e);
    }
  }

  lemma NotYetSpent(w: World, e: Event)
    requires WellFormed(w) && Enabled(w, e) && Buyer(w, e).Some?
    ensures !Spent(w.store, Buyer(w, e).value, PaymentOf(w, e))
    ensures PaymentOf(w, e) < |Next(w, e).store.payments|
  {
  }

  lemma HistoryNamesGrant(w: World, e: Event)
    requires WellFormed(w) && Enabled(w, e) && Buyer(w, e).Some?
    ensures Next(w, e).acts == w.acts + [GrantFor(w, e)]
  {
  }

  lemma SpentStep(w: World, e: Event, user: nat, k: nat)
    requires WellFormed(w) && PaymentsOk(w.store) && Enabled(w, e)
    requires k < |Next(w, e).store.payments|
    ensures var s, s' := w.store, Next(w, e).store;
            Spent(s', user, k) <==> Spent(s, user, k) || (Buyer(w, e) == Some(user) && k == PaymentOf(w, e))
  {
    if RenewedRow(w, e).None? {
      SpentWithoutRenewal(w, e, user, k);
    } else if e.Confirm? {
      SpentByConfirmation(w, e, user, k);
    } else {
      SpentByActivation(w, e, user, k);
    }
  }

  lemma SpentWithoutRenewal(w: World, e: Event, user: nat, k: nat)
    requires WellFormed(w) && Enabled(w, e) && RenewedRow(w, e).None? && k < |Next(w, e).store.payments|
    ensures Spent(Next(w, e).store, user, k) <==> Spent(w.store, user, k)
  {
    if k < |w.store.payments| {
      RowFrame(w, e, w.store.payments[k].sub);
    }
  }

  lemma SpentByActivation(w: World, e: Event, user: nat, k: nat)
    requires WellFormed(w) && Enabled(w, e) && e.Activate? && RenewedRow(w, e).Some?
    requires k < |Next(w, e).store.payments|
    ensures Spent(Next(w, e).store, user, k) <==>
            Spent(w.store, user, k) || (UserId(w.store.users, e.telegramId) == user && k == |w.store.payments|)
  {
    if k < |w.store.payments| {
      RowFrame(w, e, w.store.payments[k].sub);
    }
  }

  lemma SpentByConfirmation(w: World, e: Event, user: nat, k: nat)
    requires WellFormed(w) && PaymentsOk(w.store) && Enabled(w, e) && e.Confirm? && Confirmable(w.store, e.row)
    requires k < |w.store.payments|
    ensures k < |Next(w, e).store.payments|
    ensures var s, s' := w.store, Next(w, e).store;
            Spent(s', user, k) <==> Spent(s, user, k) || (s.subs[e.row].user == user && k == PaymentOf(w, e))
  {
    var s := w.store;
    var i := s.payments[k].sub;
    RowFrame(w, e, i);
    RowFrame(w, e, e.target);
    if i == e.row {
      // The placeholder owns this payment only.
      assert k == OwnedBy(s.payments, i).value;
    }
  }

  lemma StepCounts(w: World, e: Event, user: nat)
    requires Inv(w) && Enabled(w, e)
    ensures |SpentPayments(Next(w, e).store, user)| - |SpentPayments(w.store, user)|
         == |PurchaseTimes(Next(w, e).acts, user)| - |PurchaseTimes(w.acts, user)|
  {
    StepSpends(w, e, user);
    StepActs(w, e, user);
  }

  /** The number of payments behind a user's activated rows grows by exactly the number of the user's activations. */
  lemma {:induction false} PaymentsMatchActivations(w: World, run: seq<Event>, user: nat)
    requires Inv(w) && Legal(w, run)
    ensures |SpentPayments(Run(w, run).store, user)| - |SpentPayments(w.store, user)|
         == |PurchaseTimes(Run(w, run).acts, user)| - |PurchaseTimes(w.acts, user)|
    decreases |run|
  {
    if run != [] {
      StepCounts(w, run[0], user);
      StepKeepsInv(w, run[0]);
      PaymentsMatchActivations(Next(w, run[0]), run[1..], user);
    }
  }

  ghost predicate GrantsApart(acts: seq<Act>) {
    forall i, j :: 0 <= i < j < |acts| && acts[i].Granted? && acts[j].Granted? ==>
      !SameKey(acts[i].charge, acts[j].charge)
  }

  ghost predicate GrantsPaidFor(s: Store, acts: seq<Act>) {
    forall i :: 0 <= i < |acts| && acts[i].Granted? ==> PaidFor(s, acts[i].user, acts[i].charge)
  }

  /** No two activations are for the same payment, and each is for a payment now spent by the activated user. */
  ghost predicate EachGrantHasItsOwnPayment(w: World) {
    GrantsApart(w.acts) && GrantsPaidFor(w.store, w.acts)
  }

  ghost predicate PaidFor(s: Store, user: nat, charge: Charge) {
    exists k: nat | k < |s.payments| :: Spent(s, user, k) && s.payments[k].charge == charge
  }

  lemma StillPaidFor(w: World, e: Event, user: nat, charge: Charge)
    requires WellFormed(w) && PaymentsOk(w.store) && Enabled(w, e) && PaidFor(w.store, user, charge)
    ensures PaidFor(Next(w, e).store, user, charge)
  {
    var k: nat :| k < |w.store.payments| && Spent(w.store, user, k) && w.store.payments[k].charge == charge;
    StepKeepsPayment(w, e, k);
    SpentStep(w, e, user, k);
  }

  /** The payment an activation spends has another key than any payment spent before. */
  lemma NotSpentTwice(w: World, e: Event, user: nat, charge: Charge)
    requires Inv(w) && Enabled(w, e) && Buyer(w, e).Some? && PaidFor(w.store, user, charge)
    requires PaymentOf(w, e) < |Next(w, e).store.payments|
    ensures !SameKey(charge, Next(w, e).store.payments[PaymentOf(w, e)].charge)
  {
    var s := w.store;
    var k: nat :| k < |s.payments| && Spent(s, user, k) && s.payments[k].charge == charge;
    if e.Confirm? {
      var j := OwnedBy(s.payments, e.row).value;
      assert j != k;
    }
  }

  /** What an activation adds to the history: a grant of the buyer's, for a payment now theirs, with its own key. */
  lemma NewGrantIsPaidFor(w: World, e: Event)
    requires Inv(w) && Enabled(w, e) && EachGrantHasItsOwnPayment(w) && Buyer(w, e).Some?
    ensures var w', grant := Next(w, e), GrantFor(w, e);
            && w'.acts == w.acts + [grant] && PaidFor(w'.store, grant.user, grant.charge)
            && forall i :: 0 <= i < |w.acts| && w.acts[i].Granted? ==> !SameKey(w.acts[i].charge, grant.charge)
  {
    var user, paid := Buyer(w, e).value, PaymentOf(w, e);
    StepSpends(w, e, user);
    SpentStep(w, e, user, paid);
    assert Spent(Next(w, e).store, user, paid);
    forall i | 0 <= i < |w.acts| && w.acts[i].Granted? ensures !SameKey(w.acts[i].charge, GrantFor(w, e).charge) {
      NotSpentTwice(w, e, w.acts[i].user, w.acts[i].charge);
    }
  }

  lemma GrantsStayPaidFor(w: World, e: Event)
    requires Inv(w) && Enabled(w, e) && EachGrantHasItsOwnPayment(w)
    ensures GrantsPaidFor(Next(w, e).store, w.acts)
  {
    forall i | 0 <= i < |w.acts| && w.acts[i].Granted?
      ensures PaidFor(Next(w, e).store, w.acts[i].user, w.acts[i].charge)
    {
      StillPaidFor(w, e, w.acts[i].user, w.acts[i].charge);
    }
  }

  lemma OneGrantMore(s: Store, acts: seq<Act>, grant: Act)
    requires GrantsApart(acts) && GrantsPaidFor(s, acts)
    requires grant.Granted? && PaidFor(s, grant.user, grant.charge)
    requires forall i :: 0 <= i < |acts| && acts[i].Granted? ==> !SameKey(acts[i].charge, grant.charge)
    ensures GrantsApart(acts + [grant]) && GrantsPaidFor(s, acts + [grant])
  {
  }

  lemma NoGrantMore(s: Store, acts: seq<Act>, act: Act)
    requires GrantsApart(acts) && GrantsPaidFor(s, acts) && act.Reminded?
    ensures GrantsApart(acts + [act]) && GrantsPaidFor(s, acts + [act])
  {
  }

  lemma StepKeepsOwnPayments(w: World, e: Event)
    requires Inv(w) && Enabled(w, e) && EachGrantHasItsOwnPayment(w)
    ensures EachGrantHasItsOwnPayment(Next(w, e))
  {
    GrantsStayPaidFor(w, e);
    if Buyer(w, e).Some? {
      NewGrantIsPaidFor(w, e);
      OneGrantMore(Next(w, e).store, w.acts, GrantFor(w, e));
    } else {
      OneActAtMost(w, e);
      if ActOf(w, e).Some? {
        NoGrantMore(Next(w, e).store, w.acts, ActOf(w, e).value);
      }
    }
  }

  lemma {:induction false} NoPaymentActivatesTwice(w: World, run: seq<Event>)
    requires Inv(w) && Legal(w, run) && EachGrantHasItsOwnPayment(w)
    ensures EachGrantHasItsOwnPayment(Run(w, run))
    decreases |run|
  {
    if run != [] {
      StepKeepsOwnPayments(w, run[0]);
      StepKeepsInv(w, run[0]);
      NoPaymentActivatesTwice(Next(w, run[0]), run[1..]);
    }
  }

  // ----- a placeholder is confirmed at most once -----

  /** The placeholder can no longer be confirmed: it is active or past, or its payment has moved on,
      and no handler is about to attach one. */
  ghost predicate Settled(w: World, i: nat) {
    i < |w.store.subs| && i !in w.drafts && !Confirmable(w.store, i)
  }

  lemma StepKeepsSettled(w: World, e: Event, i: nat)
    requires WellFormed(w) && Enabled(w, e) && Settled(w, i)
    ensures Settled(Next(w, e), i)
  {
    RowFrame(w, e, i);
  }

  lemma {:induction false} SettledForever(w: World, run: seq<Event>, i: nat)
    requires WellFormed(w) && Legal(w, run) && Settled(w, i)
    ensures Settled(Run(w, run), i)
    decreases |run|
  {
    if run != [] {
      StepKeepsSettled(w, run[0], i);
      StepKeepsWellFormed(w, run[0]);
      SettledForever(Next(w, run[0]), run[1..], i);
    }
  }

  lemma ConfirmationSettles(w: World, target: nat, i: nat)
    requires WellFormed(w) && PaymentsOk(w.store) && Confirmable(w.store, i) && Enabled(w, Confirm(i, target))
    ensures Settled(Next(w, Confirm(i, target)), i)
  {
    var w' := Next(w, Confirm(i, target));
    RowFrame(w, Confirm(i, target), i);
    assert i !in w.drafts by {
      assert w.store.payments[OwnedBy(w.store.payments, i).value].sub == i;
    }
    if target != i {
      assert forall k :: 0 <= k < |w'.store.payments| ==> w'.store.payments[k].sub != i;
    }
  }

  /** Once a placeholder has been confirmed, in every continuation of the run
      every later confirmation of it changes nothing. */
  lemma ConfirmedOnlyOnce(w: World, target: nat, i: nat, run: seq<Event>, again: nat)
    requires Inv(w) && Legal(w, run)
    ensures run != [] && run[0] == Confirm(i, target) && Confirmable(w.store, i) ==>
              Enabled(Run(w, run), Confirm(i, again)) && Next(Run(w, run), Confirm(i, again)) == Run(w, run)
  {
    if run != [] && run[0] == Confirm(i, target) && Confirmable(w.store, i) {
      StepKeepsInv(w, Confirm(i, target));
      ConfirmationSettles(w, target, i);
      SettledForever(Next(w, Confirm(i, target)), run[1..], i);
    }
  }

  // ----- a recorded placeholder stays confirmable until it is confirmed -----

  /** The run does not confirm placeholder `i`. */
  ghost predicate NotConfirmedIn(run: seq<Event>, i: nat) {
    forall k :: 0 <= k < |run| ==> !(run[k].Confirm? && run[k].row == i)
  }

  lemma StepKeepsConfirmable(w: World, e: Event, i: nat)
    requires WellFormed(w) && Enabled(w, e) && Confirmable(w.store, i) && !(e.Confirm? && e.row == i)
    ensures Confirmable(Next(w, e).store, i)
  {
    RowFrame(w, e, i);
    var k := OwnedBy(w.store.payments, i).value;
    assert Next(w, e).store.payments[k].sub == i;
  }

  lemma SomeTarget(w: World, i: nat) returns (target: nat)
    requires i < |w.store.subs|
    ensures Enabled(w, Confirm(i, target))
  {
    var subs, user := w.store.subs, w.store.subs[i].user;
    target := i;
    if HasLive(subs, user) {
      target := SomeLatestLive(subs, user, |subs|);
      assert LatestLive(subs, user, target);
    }
  }

  /** Once no handler is about to attach its payment, a placeholder can be confirmed at the end of a run exactly when it
      could be at the start, and the run did not confirm it. */
  lemma {:induction false} ConfirmableExactly(w: World, run: seq<Event>, i: nat)
    requires WellFormed(w) && PaymentsOk(w.store) && Legal(w, run) && i < |w.store.subs| && i !in w.drafts
    ensures Confirmable(Run(w, run).store, i) <==> Confirmable(w.store, i) && NotConfirmedIn(run, i)
    decreases |run|
  {
    if !Confirmable(w.store, i) {
      SettledForever(w, run, i);
    } else if run != [] {
      var e := run[0];
      StepKeepsWellFormed(w, e);
      StepKeepsPayments(w, e);
      if e.Confirm? && e.row == i {
        ConfirmationSettles(w, e.target, i);
        SettledForever(Next(w, e), run[1..], i);
      } else {
        StepKeepsConfirmable(w, e, i);
        StillNoDraft(w, e, i);
        ConfirmableExactly(Next(w, e), run[1..], i);
        assert forall k :: 1 <= k < |run| ==> run[k] == run[1..][k - 1];
      }
    }
  }

  lemma StillNoDraft(w: World, e: Event, i: nat)
    requires Enabled(w, e) && i < |w.store.subs| && i !in w.drafts
    ensures i < |Next(w, e).store.subs| && i !in Next(w, e).drafts
  {
    RowFrame(w, e, i);
  }

  // ----- a screenshot credits its sender -----

  /** Placeholder `i` is this user's, for this payment and no other, as long as it is PENDING. */
  ghost predicate PlaceholderOf(w: World, i: nat, user: nat, telegramId: int, charge: Charge) {
    && i < |w.store.subs| && i !in w.drafts && w.store.subs[i].user == user
    && user < |w.store.users| && w.store.users[user] == telegramId
    && (w.store.subs[i].status == PENDING ==>
          forall k :: 0 <= k < |w.store.payments| && w.store.payments[k].sub == i ==>
            w.store.payments[k].charge == charge)
  }

  lemma StepKeepsPlaceholder(w: World, e: Event, i: nat, user: nat, telegramId: int, charge: Charge)
    requires WellFormed(w) && Enabled(w, e) && PlaceholderOf(w, i, user, telegramId, charge)
    ensures PlaceholderOf(Next(w, e), i, user, telegramId, charge)
  {
    RowFrame(w, e, i);
  }

  lemma {:induction false} PlaceholderStays(w: World, run: seq<Event>, i: nat, user: nat, telegramId: int,
                                            charge: Charge)
    requires WellFormed(w) && Legal(w, run) && PlaceholderOf(w, i, user, telegramId, charge)
    ensures WellFormed(Run(w, run)) && PlaceholderOf(Run(w, run), i, user, telegramId, charge)
    decreases |run|
  {
    if run != [] {
      StepKeepsPlaceholder(w, run[0], i, user, telegramId, charge);
      StepKeepsWellFormed(w, run[0]);
      PlaceholderStays(Next(w, run[0]), run[1..], i, user, telegramId, charge);
    }
  }

  lemma StepKeepsAll(w: World, e: Event)
    requires Inv(w) && RowsSound(w) && Enabled(w, e)
    ensures Inv(Next(w, e)) && RowsSound(Next(w, e))
  {
    StepKeepsInv(w, e);
    StepKeepsRows(w, e);
  }

  lemma ScreenshotKeepsAll(w: World, telegramId: int, charge: Charge)
    requires Inv(w) && RowsSound(w)
    ensures var w' := AfterScreenshot(w, telegramId, charge); Inv(w') && RowsSound(w')
  {
    var registered := Next(w, Register(telegramId));
    StepKeepsAll(w, Register(telegramId));
    var draft := Draft(UserId(w.store.users, telegramId));
    StepKeepsAll(registered, draft);
    StepKeepsAll(Next(registered, draft), Attach(|w.store.subs|, charge));
  }

  lemma ScreenshotLeavesPlaceholder(w: World, telegramId: int, charge: Charge)
    requires InReach(w) && DraftsOk(w)
    ensures var w' := AfterScreenshot(w, telegramId, charge);
            PlaceholderOf(w', |w.store.subs|, UserId(w.store.users, telegramId), telegramId, charge)
  {
  }

  /** A confirmation that grants the user one period for the charge: the history says so, and the user is paid for
      thirty days more exactly unless a row of theirs that was closed too early is in the way. */
  ghost predicate Credits(before: World, after: World, user: nat, telegramId: int, target: nat, charge: Charge) {
    && user < |after.store.users| && after.store.users[user] == telegramId
    && target < |after.store.subs| && after.store.subs[target].expiresAt.Some?
    && after.acts ==
       before.acts + [Granted(user, target, before.now, after.store.subs[target].expiresAt.value, charge)]
    && Bought(PaidUntil(before.store.subs, user), PaidUntil(after.store.subs, user), before.now,
              Outranked(before.store.subs, user, before.now))
  }

  /** Confirming a user's placeholder grants that user one period, for the placeholder's payment. */
  lemma ConfirmationCredits(w: World, i: nat, target: nat, user: nat, telegramId: int, charge: Charge)
    requires Inv(w) && RowsSound(w) && PlaceholderOf(w, i, user, telegramId, charge)
    requires Confirmable(w.store, i) && Enabled(w, Confirm(i, target))
    ensures Credits(w, Next(w, Confirm(i, target)), user, telegramId, target, charge)
  {
    StepRefinesScalar(w, Confirm(i, target), user);
  }

  lemma FreshScreenshotIsConfirmable(w: World, telegramId: int, charge: Charge)
    requires InReach(w) && DraftsOk(w)
    ensures var w', i := AfterScreenshot(w, telegramId, charge), |w.store.subs|;
            && i < |w'.store.subs| && i !in w'.drafts
            && (Confirmable(w'.store, i) <==> KeyIsFree(w.store.payments, charge))
  {
    var w', i := AfterScreenshot(w, telegramId, charge), |w.store.subs|;
    ScreenshotRecords(w, telegramId, charge);
    if KeyIsFree(w.store.payments, charge) {
      assert w'.store.payments[|w.store.payments|] == Payment(i, charge);
    }
  }

  /** The administrator can confirm a screenshot exactly when its key was free and it was not confirmed before, however
      much happens in between. Then there is a row to confirm it on; and on whatever row it is confirmed, the
      confirmation is accepted and grants a period to the sender, for the payment that the screenshot recorded. */
  lemma ScreenshotCreditsItsSender(w: World, telegramId: int, charge: Charge, run: seq<Event>, target: nat)
      returns (some: nat)
    requires Inv(w) && RowsSound(w) && Legal(AfterScreenshot(w, telegramId, charge), run)
    ensures var later, i := Run(AfterScreenshot(w, telegramId, charge), run), |w.store.subs|;
            var user := UserId(w.store.users, telegramId);
            && (Confirmable(later.store, i) <==> KeyIsFree(w.store.payments, charge) && NotConfirmedIn(run, i))
            && Enabled(later, Confirm(i, some))
            && (Confirmable(later.store, i) && Enabled(later, Confirm(i, target)) ==>
                  && Confirms(later, Next(later, Confirm(i, target)), i, target)
                  && Credits(later, Next(later, Confirm(i, target)), user, telegramId, target, charge))
  {
    var i, user, start := |w.store.subs|, UserId(w.store.users, telegramId), AfterScreenshot(w, telegramId, charge);
    ScreenshotLeavesPlaceholder(w, telegramId, charge);
    ScreenshotKeepsAll(w, telegramId, charge);
    FreshScreenshotIsConfirmable(w, telegramId, charge);
    ConfirmableExactly(start, run, i);
    PlaceholderStays(start, run, i, user, telegramId, charge);
    RunKeepsInv(start, run);
    RunKeepsRows(start, run);
    var later := Run(start, run);
    some := SomeTarget(later, i);
    if Confirmable(later.store, i) && Enabled(later, Confirm(i, target)) {
      ConfirmationCredits(later, i, target, user, telegramId, charge);
      ConfirmationConfirms(later, i, target);
    }
  }
}
