/** Payment notifications: any number of concurrent handlers, each a duplicate check followed later by a transaction. */
module Webhook {
  import opened Options
  import opened StateMachine
  import opened Ledger
  import opened Invariants
  import opened Accounting
  import opened Effects
  import opened Repositories
  import PaymentService

  /** The idempotency namespace of checkout sessions. */
  const PROVIDER := "stripe"

  datatype Kind = Completed(paid: bool) | AsyncSucceeded | AsyncFailed | Unhandled

  /** A verified notification about one checkout session; `payer` is None when the session does not name one. */
  datatype Delivery = Delivery(kind: Kind, session: string, payer: Option<int>, amount: int, currency: string)

  datatype Reply =
    | Ignored
    | AlreadyProcessed
    | PaymentFailed
    | AwaitingPayment
    | UnidentifiedPayer
    | ActivationFailed
    | Ok

  function ChargeOf(d: Delivery): Charge {
    Charge(PROVIDER, d.session, d.amount, d.currency)
  }

  /** The session is paid for, and by a known payer. */
  predicate Paying(d: Delivery) {
    (d.kind == Completed(true) || d.kind == AsyncSucceeded) && d.payer.Some?
  }

  /** The exits before the transaction, in the handler's order; None when the transaction is to be tried. */
  function EarlyReply(payments: seq<Payment>, d: Delivery): (early: Option<Reply>)
    ensures early.None? <==> Paying(d) && !Recorded(payments, ChargeOf(d))
    ensures early == Some(Ignored) <==> d.kind == Unhandled
    ensures early == Some(AlreadyProcessed) <==> d.kind != Unhandled && Recorded(payments, ChargeOf(d))
    ensures early == Some(PaymentFailed) <==> d.kind == AsyncFailed && !Recorded(payments, ChargeOf(d))
    ensures early == Some(AwaitingPayment) <==> d.kind == Completed(false) && !Recorded(payments, ChargeOf(d))
    ensures early == Some(UnidentifiedPayer) <==>
            d.kind in {Completed(true), AsyncSucceeded} && d.payer.None? && !Recorded(payments, ChargeOf(d))
    ensures Recorded(payments, ChargeOf(d)) <==> !KeyIsFree(payments, Charge("stripe", d.session, 0, ""))
  {
    if d.kind == Unhandled then Some(Ignored)
    else if Recorded(payments, ChargeOf(d)) then Some(AlreadyProcessed)
    else if d.kind == AsyncFailed then Some(PaymentFailed)
    else if d.kind == Completed(false) then Some(AwaitingPayment)
    else if d.payer.None? then Some(UnidentifiedPayer)
    else None
  }

  /** How far a handler has come with its delivery. */
  datatype Handler =
    | Received(d: Delivery)
    | Cleared(d: Delivery)
    | Committed(d: Delivery)
    | Replied(d: Delivery, reply: Reply)

  /** `confirmed` are the sessions whose payer was sent a confirmation; `attempts` are the transactions tried so far,
      by handlers and by everyone else, in commit order. */
  datatype Web = Web(world: World, handlers: seq<Handler>, confirmed: seq<string>, attempts: seq<Event>)

  datatype Step =
    | Arrive(d: Delivery)
    | LookUp(h: nat)
    | Commit(h: nat, target: nat, fails: bool)
    | SendConfirmation(h: nat)
    | Outside(e: Event)

  function AttemptOf(d: Delivery, target: nat): Event
    requires d.payer.Some?
  {
    Activate(d.payer.value, ChargeOf(d), target)
  }

  /** Nothing outside the handlers writes into the namespace of checkout sessions. */
  predicate Foreign(e: Event) {
    (e.Activate? || e.Attach?) ==> e.charge.provider != PROVIDER
  }

  predicate Allowed(web: Web, step: Step) {
    match step
    case Arrive(_) => true
    case LookUp(h) => h < |web.handlers| && web.handlers[h].Received?
    case Commit(h, target, fails) =>
      && h < |web.handlers| && web.handlers[h].Cleared? && web.handlers[h].d.payer.Some?
      && (!fails ==> Enabled(web.world, AttemptOf(web.handlers[h].d, target)))
    case SendConfirmation(h) => h < |web.handlers| && web.handlers[h].Committed?
    case Outside(e) => Foreign(e) && Enabled(web.world, e)
  }

  function After(web: Web, step: Step): Web
    requires Allowed(web, step)
  {
    match step
    case Arrive(d) => web.(handlers := web.handlers + [Received(d)])
    case LookUp(h) =>
      var d := web.handlers[h].d;
      var early := EarlyReply(web.world.store.payments, d);
      web.(handlers := web.handlers[h := if early.Some? then Replied(d, early.value) else Cleared(d)])
    case Commit(h, target, fails) =>
      var d := web.handlers[h].d;
      if fails then web.(handlers := web.handlers[h := Replied(d, ActivationFailed)])
      else
        var lost := Recorded(web.world.store.payments, ChargeOf(d));
        web.(world := Next(web.world, AttemptOf(d, target)),
             handlers := web.handlers[h := if lost then Replied(d, AlreadyProcessed) else Committed(d)],
             attempts := web.attempts + [AttemptOf(d, target)])
    case SendConfirmation(h) =>
      var d := web.handlers[h].d;
      web.(handlers := web.handlers[h := Replied(d, Ok)], confirmed := web.confirmed + [d.session])
    case Outside(e) => web.(world := Next(web.world, e), attempts := web.attempts + [e])
  }

  ghost predicate Possible(web: Web, run: seq<Step>)
    decreases |run|
  {
    run == [] || (Allowed(web, run[0]) && Possible(After(web, run[0]), run[1..]))
  }

  ghost function Play(web: Web, run: seq<Step>): Web
    requires Possible(web, run)
    decreases |run|
  {
    if run == [] then web else Play(After(web, run[0]), run[1..])
  }

  function Start(w: World): Web {
    Web(w, [], [], [])
  }

  // ----- the invariant -----

  /** The handler's transaction is the one that activated its session. */
  predicate Won(h: Handler) {
    h.Committed? || (h.Replied? && h.reply == Ok)
  }

  /** What a handler's progress says about its delivery and the ledger. */
  predicate HandlerOk(payments: seq<Payment>, h: Handler) {
    match h
    case Received(_) => true
    case Cleared(d) => Paying(d)
    case Committed(d) => Paying(d) && Recorded(payments, ChargeOf(d))
    case Replied(d, reply) =>
      match reply
      case Ignored => d.kind == Unhandled
      case AlreadyProcessed => Recorded(payments, ChargeOf(d))
      case PaymentFailed => d.kind == AsyncFailed
      case AwaitingPayment => d.kind == Completed(false)
      case UnidentifiedPayer => d.payer.None?
      case ActivationFailed => Paying(d)
      case Ok => Paying(d) && Recorded(payments, ChargeOf(d))
  }

  ghost predicate HandlersOk(web: Web) {
    && (forall h :: 0 <= h < |web.handlers| ==> HandlerOk(web.world.store.payments, web.handlers[h]))
    && (forall g, h :: 0 <= g < h < |web.handlers| && Won(web.handlers[g]) && Won(web.handlers[h]) ==>
          web.handlers[g].d.session != web.handlers[h].d.session)
  }

  /** Confirmations went out once each, to exactly the sessions of the handlers that replied "ok". */
  ghost predicate ConfirmedOk(web: Web) {
    && (forall a, b :: 0 <= a < b < |web.confirmed| ==> web.confirmed[a] != web.confirmed[b])
    && (forall a :: 0 <= a < |web.confirmed| ==> AnsweredOk(web.handlers, web.confirmed[a]))
    && (forall h :: 0 <= h < |web.handlers| && web.handlers[h].Replied? && web.handlers[h].reply == Ok ==>
          web.handlers[h].d.session in web.confirmed)
  }

  ghost predicate AnsweredOk(handlers: seq<Handler>, session: string) {
    exists h :: 0 <= h < |handlers| && handlers[h].Replied? && handlers[h].reply == Ok
                && handlers[h].d.session == session
  }

  /** Some handler won, for the session, the amount and the currency of the charge. */
  ghost predicate HasWinner(handlers: seq<Handler>, charge: Charge) {
    exists h :: 0 <= h < |handlers| && WonFor(handlers[h], charge)
  }

  predicate WonFor(h: Handler, charge: Charge) {
    Won(h) && h.d.session == charge.ref && h.d.amount == charge.amount && h.d.currency == charge.currency
  }

  /** Every checkout payment recorded since the start was recorded by a handler that won. */
  ghost predicate WinnersOk(web: Web, start: World) {
    forall k :: |start.store.payments| <= k < |web.world.store.payments|
                && web.world.store.payments[k].charge.provider == PROVIDER ==>
      HasWinner(web.handlers, web.world.store.payments[k].charge)
  }

  /** The user is the payer of a winner for the charge. */
  ghost predicate PaidByUser(handlers: seq<Handler>, users: seq<int>, user: nat, charge: Charge) {
    exists h :: 0 <= h < |handlers| && WonFor(handlers[h], charge)
                && user < |users| && handlers[h].d.payer == Some(users[user])
  }

  /** Every grant since the start for a checkout payment that is new since then is to the payer of its winner. */
  ghost predicate GrantsOk(web: Web, start: World) {
    forall k :: |start.acts| <= k < |web.world.acts| && web.world.acts[k].Granted?
                && web.world.acts[k].charge.provider == PROVIDER
                && KeyIsFree(start.store.payments, web.world.acts[k].charge) ==>
      PaidByUser(web.handlers, web.world.store.users, web.world.acts[k].user, web.world.acts[k].charge)
  }

  /** The payments of the start keep their charges, and no new checkout payment belongs to a placeholder. */
  ghost predicate NewPaymentsOk(web: Web, start: World) {
    var s, before := web.world.store, |start.store.payments|;
    && before <= |s.payments| && |start.acts| <= |web.world.acts|
    && (forall k :: 0 <= k < before ==> s.payments[k].charge == start.store.payments[k].charge)
    && (forall k :: before <= k < |s.payments| && s.payments[k].charge.provider == PROVIDER ==>
          s.payments[k].sub < |s.subs| && s.subs[s.payments[k].sub].status != PENDING)
  }

  ghost predicate LogOk(web: Web, start: World) {
    Legal(start, web.attempts) && Run(start, web.attempts) == web.world
  }

  ghost predicate WebOk(web: Web, start: World) {
    && Inv(web.world) && HandlersOk(web) && ConfirmedOk(web) && WinnersOk(web, start) && LogOk(web, start)
    && GrantsOk(web, start) && NewPaymentsOk(web, start)
  }

  /** Payments keep their charges, and at most the event's own is added. */
  lemma ChargesStep(w: World, e: Event)
    requires Enabled(w, e)
    ensures var ps, ps' := w.store.payments, Next(w, e).store.payments;
            && |ps| <= |ps'| <= |ps| + 1
            && (forall k :: 0 <= k < |ps| ==> ps'[k].charge == ps[k].charge)
            && (|ps'| > |ps| ==> (e.Activate? || e.Attach?) && ps'[|ps|].charge == e.charge)
  {
  }

  lemma StillRecorded(w: World, e: Event, c: Charge)
    requires Enabled(w, e) && Recorded(w.store.payments, c)
    ensures Recorded(Next(w, e).store.payments, c)
  {
    ChargesStep(w, e);
    var k :| 0 <= k < |w.store.payments| && SameKey(w.store.payments[k].charge, c);
    assert SameKey(Next(w, e).store.payments[k].charge, c);
  }

  lemma LogOneMore(web: Web, start: World, e: Event)
    requires LogOk(web, start) && Enabled(web.world, e)
    ensures Legal(start, web.attempts + [e]) && Run(start, web.attempts + [e]) == Next(web.world, e)
  {
    RunCons(web.world, e, []);
    RunConcat(start, web.attempts, [e] + []);
    assert [e] + [] == [e];
  }

  /** The event a step applies to the ledger. */
  function EventOf(web: Web, step: Step): Option<Event>
    requires Allowed(web, step)
  {
    match step
    case Commit(h, target, fails) => if fails then None else Some(AttemptOf(web.handlers[h].d, target))
    case Outside(e) => Some(e)
    case _ => None
  }

  lemma StepKeepsHandler(web: Web, step: Step, h: nat)
    requires Allowed(web, step) && h < |After(web, step).handlers|
    requires h < |web.handlers| ==> HandlerOk(web.world.store.payments, web.handlers[h])
    ensures HandlerOk(After(web, step).world.store.payments, After(web, step).handlers[h])
  {
    if h < |web.handlers| {
      var c, event := ChargeOf(web.handlers[h].d), EventOf(web, step);
      if event.Some? && Recorded(web.world.store.payments, c) {
        StillRecorded(web.world, event.value, c);
      } else if step.Commit? && !step.fails && h == step.h {
        assert SameKey(After(web, step).world.store.payments[|web.world.store.payments|].charge, c);
      }
    }
  }

  lemma StepKeepsWinnersApart(web: Web, step: Step, g: nat, h: nat)
    requires HandlersOk(web) && Allowed(web, step) && g < h < |After(web, step).handlers|
    requires Won(After(web, step).handlers[g]) && Won(After(web, step).handlers[h])
    ensures After(web, step).handlers[g].d.session != After(web, step).handlers[h].d.session
  {
    assert HandlerOk(web.world.store.payments, web.handlers[g]);
    assert HandlerOk(web.world.store.payments, web.handlers[h]);
  }

  lemma StepKeepsHandlers(web: Web, start: World, step: Step)
    requires WebOk(web, start) && Allowed(web, step)
    ensures HandlersOk(After(web, step))
  {
    var web' := After(web, step);
    forall h: nat | h < |web'.handlers| ensures HandlerOk(web'.world.store.payments, web'.handlers[h]) {
      StepKeepsHandler(web, step, h);
    }
    forall g: nat, h: nat | g < h < |web'.handlers| && Won(web'.handlers[g]) && Won(web'.handlers[h])
      ensures web'.handlers[g].d.session != web'.handlers[h].d.session
    {
      StepKeepsWinnersApart(web, step, g, h);
    }
  }

  lemma StillAnswered(web: Web, step: Step, session: string)
    requires Allowed(web, step) && AnsweredOk(web.handlers, session)
    ensures AnsweredOk(After(web, step).handlers, session)
  {
    var h :| 0 <= h < |web.handlers| && web.handlers[h].Replied? && web.handlers[h].reply == Ok
             && web.handlers[h].d.session == session;
    assert After(web, step).handlers[h] == web.handlers[h];
  }

  /** A session about to be confirmed has not been confirmed. */
  lemma NotConfirmedYet(web: Web, h: nat)
    requires HandlersOk(web) && ConfirmedOk(web) && h < |web.handlers| && web.handlers[h].Committed?
    ensures web.handlers[h].d.session !in web.confirmed
  {
    if a :| 0 <= a < |web.confirmed| && web.confirmed[a] == web.handlers[h].d.session {
      assert AnsweredOk(web.handlers, web.confirmed[a]);
      var g :| 0 <= g < |web.handlers| && web.handlers[g].Replied? && web.handlers[g].reply == Ok
               && web.handlers[g].d.session == web.confirmed[a];
      assert Won(web.handlers[g]) && Won(web.handlers[h]);
    }
  }

  lemma ConfirmationKeepsConfirmed(web: Web, h: nat)
    requires HandlersOk(web) && ConfirmedOk(web) && Allowed(web, SendConfirmation(h))
    ensures ConfirmedOk(After(web, SendConfirmation(h)))
  {
    var web' := After(web, SendConfirmation(h));
    NotConfirmedYet(web, h);
    forall a | 0 <= a < |web'.confirmed| ensures AnsweredOk(web'.handlers, web'.confirmed[a]) {
      if a < |web.confirmed| {
        StillAnswered(web, SendConfirmation(h), web.confirmed[a]);
      } else {
        assert web'.handlers[h].Replied? && web'.handlers[h].d.session == web'.confirmed[a];
      }
    }
    assert web'.confirmed[|web.confirmed|] == web.handlers[h].d.session;
  }

  lemma StepKeepsConfirmed(web: Web, start: World, step: Step)
    requires WebOk(web, start) && Allowed(web, step)
    ensures ConfirmedOk(After(web, step))
  {
    if step.SendConfirmation? {
      ConfirmationKeepsConfirmed(web, step.h);
    } else {
      forall a | 0 <= a < |web.confirmed| ensures AnsweredOk(After(web, step).handlers, web.confirmed[a]) {
        StillAnswered(web, step, web.confirmed[a]);
      }
    }
  }

  /** Winners stay winners. */
  lemma StillWon(web: Web, step: Step, h: nat, charge: Charge)
    requires Allowed(web, step) && h < |web.handlers| && WonFor(web.handlers[h], charge)
    ensures h < |After(web, step).handlers| && After(web, step).handlers[h].d == web.handlers[h].d
    ensures WonFor(After(web, step).handlers[h], charge)
  {
  }

  lemma StillHasWinner(web: Web, step: Step, charge: Charge)
    requires Allowed(web, step) && HasWinner(web.handlers, charge)
    ensures HasWinner(After(web, step).handlers, charge)
  {
    var h :| 0 <= h < |web.handlers| && WonFor(web.handlers[h], charge);
    StillWon(web, step, h, charge);
  }

  lemma StepKeepsWinners(web: Web, start: World, step: Step)
    requires WebOk(web, start) && Allowed(web, step)
    ensures WinnersOk(After(web, step), start)
  {
    var web' := After(web, step);
    var ps, ps' := web.world.store.payments, web'.world.store.payments;
    if EventOf(web, step).Some? {
      ChargesStep(web.world, EventOf(web, step).value);
    }
    forall k | |start.store.payments| <= k < |ps'| && ps'[k].charge.provider == PROVIDER
      ensures HasWinner(web'.handlers, ps'[k].charge)
    {
      if k < |ps| {
        StillHasWinner(web, step, ps[k].charge);
      } else {
        assert WonFor(web'.handlers[step.h], ps'[k].charge);
      }
    }
  }

  // ----- who is granted what -----

  lemma UsersGrow(w: World, e: Event)
    requires Enabled(w, e)
    ensures |w.store.users| <= |Next(w, e).store.users|
    ensures forall u :: 0 <= u < |w.store.users| ==> Next(w, e).store.users[u] == w.store.users[u]
  {
  }

  lemma StillPaidByUser(web: Web, step: Step, user: nat, charge: Charge)
    requires Allowed(web, step) && PaidByUser(web.handlers, web.world.store.users, user, charge)
    ensures PaidByUser(After(web, step).handlers, After(web, step).world.store.users, user, charge)
  {
    var h :| 0 <= h < |web.handlers| && WonFor(web.handlers[h], charge)
             && user < |web.world.store.users| && web.handlers[h].d.payer == Some(web.world.store.users[user]);
    StillWon(web, step, h, charge);
    if EventOf(web, step).Some? {
      UsersGrow(web.world, EventOf(web, step).value);
    }
  }

  lemma EventKeepsNewPayments(web: Web, start: World, e: Event)
    requires WellFormed(web.world) && NewPaymentsOk(web, start) && Enabled(web.world, e)
    requires e.Attach? ==> e.charge.provider != PROVIDER
    ensures NewPaymentsOk(web.(world := Next(web.world, e)), start)
  {
    var s, s' := web.world.store, Next(web.world, e).store;
    ChargesStep(web.world, e);
    HistoryStep(web.world, e);
    forall k | |start.store.payments| <= k < |s'.payments| && s'.payments[k].charge.provider == PROVIDER
      ensures s'.payments[k].sub < |s'.subs| && s'.subs[s'.payments[k].sub].status != PENDING
    {
      if k < |s.payments| {
        RowFrame(web.world, e, s.payments[k].sub);
        if e.Confirm? && Confirmable(s, e.row) {
          RowFrame(web.world, e, e.target);
        }
      }
    }
  }

  /** What a grant is for: a delivery's transaction, or the confirmation of a payment that the start knew,
      or one of another provider. */
  lemma NewGrant(web: Web, start: World, step: Step)
    requires WebOk(web, start) && Allowed(web, step) && EventOf(web, step).Some?
    requires RenewedRow(web.world, EventOf(web, step).value).Some?
    ensures var acts, acts', users' := web.world.acts, After(web, step).world.acts, After(web, step).world.store.users;
            && |acts'| == |acts| + 1 && acts' == acts + [acts'[|acts|]] && acts'[|acts|].Granted?
            && (acts'[|acts|].charge.provider == PROVIDER && KeyIsFree(start.store.payments, acts'[|acts|].charge) ==>
                  PaidByUser(After(web, step).handlers, users', acts'[|acts|].user, acts'[|acts|].charge))
  {
    var e, web', n := EventOf(web, step).value, After(web, step), |web.world.acts|;
    HistoryStep(web.world, e);
    if step.Commit? {
      var h, users' := web'.handlers[step.h], web'.world.store.users;
      assert WonFor(h, web'.world.acts[n].charge) && h.d.payer == Some(users'[web'.world.acts[n].user]);
    } else if e.Confirm? {
      var k := OwnedBy(web.world.store.payments, e.row).value;
      assert web'.world.acts[n].charge == web.world.store.payments[k].charge;
      if k < |start.store.payments| {
        assert start.store.payments[k].charge == web.world.store.payments[k].charge;
      }
    }
  }

  lemma NoNewGrant(web: Web, step: Step)
    requires Allowed(web, step)
    requires EventOf(web, step).Some? ==> RenewedRow(web.world, EventOf(web, step).value).None?
    ensures var acts, acts' := web.world.acts, After(web, step).world.acts;
            acts <= acts' && forall k :: |acts| <= k < |acts'| ==> acts'[k].Reminded?
  {
    if EventOf(web, step).Some? {
      HistoryStep(web.world, EventOf(web, step).value);
    }
  }

  lemma StepKeepsGrants(web: Web, start: World, step: Step)
    requires WebOk(web, start) && Allowed(web, step)
    ensures GrantsOk(After(web, step), start)
  {
    var web', acts := After(web, step), web.world.acts;
    var grants := EventOf(web, step).Some? && RenewedRow(web.world, EventOf(web, step).value).Some?;
    if grants {
      NewGrant(web, start, step);
    } else {
      NoNewGrant(web, step);
    }
    forall k | |start.acts| <= k < |web'.world.acts| && web'.world.acts[k].Granted?
               && web'.world.acts[k].charge.provider == PROVIDER
               && KeyIsFree(start.store.payments, web'.world.acts[k].charge)
      ensures PaidByUser(web'.handlers, web'.world.store.users, web'.world.acts[k].user, web'.world.acts[k].charge)
    {
      if k < |acts| {
        assert web'.world.acts[k] == acts[k];
        StillPaidByUser(web, step, acts[k].user, acts[k].charge);
      }
    }
  }

  lemma StepKeepsNewPayments(web: Web, start: World, step: Step)
    requires WebOk(web, start) && Allowed(web, step)
    ensures NewPaymentsOk(After(web, step), start)
  {
    if EventOf(web, step).Some? {
      EventKeepsNewPayments(web, start, EventOf(web, step).value);
    }
  }

  lemma StepKeepsWeb(web: Web, start: World, step: Step)
    requires WebOk(web, start) && Allowed(web, step)
    ensures WebOk(After(web, step), start)
  {
    StepKeepsHandlers(web, start, step);
    StepKeepsConfirmed(web, start, step);
    StepKeepsWinners(web, start, step);
    StepKeepsGrants(web, start, step);
    StepKeepsNewPayments(web, start, step);
    if step.Outside? {
      StepKeepsInv(web.world, step.e);
      LogOneMore(web, start, step.e);
    } else if step.Commit? && !step.fails {
      var e := AttemptOf(web.handlers[step.h].d, step.target);
      StepKeepsInv(web.world, e);
      LogOneMore(web, start, e);
    }
  }

  lemma {:induction false} PlayKeepsWeb(web: Web, start: World, run: seq<Step>)
    requires WebOk(web, start) && Possible(web, run)
    ensures WebOk(Play(web, run), start)
    decreases |run|
  {
    if run != [] {
      StepKeepsWeb(web, start, run[0]);
      PlayKeepsWeb(After(web, run[0]), start, run[1..]);
    }
  }

  // ----- exactly once -----

  /** For any number of handlers and any stream of notifications, repeated and reordered, each checkout session has
      at most one payment, at most one handler whose transaction won, and at most one confirmation; a new payment has
      its winner; and a paying delivery that is not told to come back is on record. */
  lemma ExactlyOnce(start: World, run: seq<Step>)
    requires Inv(start) && Possible(Start(start), run)
    ensures var end := Play(Start(start), run);
            var ps := end.world.store.payments;
            && (forall j, k :: 0 <= j < k < |ps| && ps[j].charge.provider == PROVIDER == ps[k].charge.provider ==>
                  ps[j].charge.ref != ps[k].charge.ref)
            && (forall g, h :: 0 <= g < h < |end.handlers| && Won(end.handlers[g]) && Won(end.handlers[h]) ==>
                  end.handlers[g].d.session != end.handlers[h].d.session)
            && (forall a, b :: 0 <= a < b < |end.confirmed| ==> end.confirmed[a] != end.confirmed[b])
            && (forall session :: session in end.confirmed <==> AnsweredOk(end.handlers, session))
            && (forall k :: |start.store.payments| <= k < |ps| && ps[k].charge.provider == PROVIDER ==>
                  HasWinner(end.handlers, ps[k].charge))
            && (forall h :: 0 <= h < |end.handlers| && end.handlers[h].Replied? && Paying(end.handlers[h].d) ==>
                  end.handlers[h].reply == ActivationFailed || Recorded(ps, ChargeOf(end.handlers[h].d)))
  {
    PlayKeepsWeb(Start(start), start, run);
    var end := Play(Start(start), run);
    forall h | 0 <= h < |end.handlers| && end.handlers[h].Replied? && Paying(end.handlers[h].d)
      ensures end.handlers[h].reply == ActivationFailed
           || Recorded(end.world.store.payments, ChargeOf(end.handlers[h].d))
    {
      assert HandlerOk(end.world.store.payments, end.handlers[h]);
    }
  }

  /** Whoever is granted access for a checkout payment that was not on record at the start is its payer: the grant is to
      the user whom a winning delivery of the session names, for the amount and currency of that delivery. */
  lemma PayersAreCredited(start: World, run: seq<Step>)
    requires Inv(start) && Possible(Start(start), run)
    ensures var end := Play(Start(start), run);
            forall k :: |start.acts| <= k < |end.world.acts| && end.world.acts[k].Granted?
                        && end.world.acts[k].charge.provider == "stripe"
                        && KeyIsFree(start.store.payments, end.world.acts[k].charge) ==>
              PaidByUser(end.handlers, end.world.store.users, end.world.acts[k].user, end.world.acts[k].charge)
  {
    PlayKeepsWeb(Start(start), start, run);
  }

  /** Each session activates at most once: no two activations in the history are for the same session. */
  lemma OneActivationPerSession(start: World, run: seq<Step>)
    requires Inv(start) && EachGrantHasItsOwnPayment(start) && Possible(Start(start), run)
    ensures var acts := Play(Start(start), run).world.acts;
            forall i, j :: 0 <= i < j < |acts| && acts[i].Granted? && acts[j].Granted?
                           && acts[i].charge.provider == PROVIDER == acts[j].charge.provider ==>
              acts[i].charge.ref != acts[j].charge.ref
  {
    PlayKeepsWeb(Start(start), start, run);
    NoPaymentActivatesTwice(start, Play(Start(start), run).attempts);
  }

  // ----- only the first delivery counts -----

  /** The log without the repeated activations of a session; `seen` are the sessions met before. */
  function FirstPerSession(seen: set<string>, log: seq<Event>): seq<Event>
    decreases |log|
  {
    if log == [] then []
    else if log[0].Activate? && log[0].charge.provider == PROVIDER then
      if log[0].charge.ref in seen then FirstPerSession(seen, log[1..])
      else [log[0]] + FirstPerSession(seen + {log[0].charge.ref}, log[1..])
    else [log[0]] + FirstPerSession(seen, log[1..])
  }

  /** Leaving out the repeats of sessions on record changes nothing. */
  lemma {:induction false} RepeatsDoNotCount(w: World, seen: set<string>, log: seq<Event>)
    requires Legal(w, log)
    requires forall c: Charge :: c.provider == PROVIDER && c.ref in seen ==> Recorded(w.store.payments, c)
    ensures Legal(w, FirstPerSession(seen, log)) && Run(w, FirstPerSession(seen, log)) == Run(w, log)
    decreases |log|
  {
    if log != [] {
      var e := log[0];
      var w' := Next(w, e);
      forall c: Charge | c.provider == PROVIDER && c.ref in seen ensures Recorded(w'.store.payments, c) {
        StillRecorded(w, e, c);
      }
      if e.Activate? && e.charge.provider == PROVIDER {
        if e.charge.ref in seen {
          assert w' == w;
          RepeatsDoNotCount(w, seen, log[1..]);
        } else {
          forall c: Charge | c.provider == PROVIDER && c.ref in seen + {e.charge.ref}
            ensures Recorded(w'.store.payments, c)
          {
            if c.ref == e.charge.ref {
              NowRecorded(w, e, c);
            }
          }
          RepeatsDoNotCount(w', seen + {e.charge.ref}, log[1..]);
          RunCons(w, e, FirstPerSession(seen + {e.charge.ref}, log[1..]));
        }
      } else {
        RepeatsDoNotCount(w', seen, log[1..]);
        RunCons(w, e, FirstPerSession(seen, log[1..]));
      }
    }
  }

  lemma NowRecorded(w: World, e: Event, c: Charge)
    requires Enabled(w, e) && e.Activate? && SameKey(e.charge, c)
    ensures Recorded(Next(w, e).store.payments, c)
  {
    if Recorded(w.store.payments, e.charge) {
      var k :| 0 <= k < |w.store.payments| && SameKey(w.store.payments[k].charge, e.charge);
      assert SameKey(w.store.payments[k].charge, c);
    } else {
      assert SameKey(Next(w, e).store.payments[|w.store.payments|].charge, c);
    }
  }

  /** The filtered log activates every session at most once. */
  lemma {:induction false} FirstPerSessionIsOnce(seen: set<string>, log: seq<Event>, i: nat, j: nat)
    requires i < j < |FirstPerSession(seen, log)|
    ensures var a, b := FirstPerSession(seen, log)[i], FirstPerSession(seen, log)[j];
            a.Activate? && b.Activate? && a.charge.provider == PROVIDER == b.charge.provider ==>
              a.charge.ref != b.charge.ref
    decreases |log|
  {
    var e, rest := log[0], log[1..];
    if e.Activate? && e.charge.provider == PROVIDER {
      if e.charge.ref in seen {
        FirstPerSessionIsOnce(seen, rest, i, j);
      } else if i == 0 {
        NotSeen(seen + {e.charge.ref}, rest, j - 1);
      } else {
        FirstPerSessionIsOnce(seen + {e.charge.ref}, rest, i - 1, j - 1);
      }
    } else if i > 0 {
      FirstPerSessionIsOnce(seen, rest, i - 1, j - 1);
    }
  }

  lemma {:induction false} NotSeen(seen: set<string>, log: seq<Event>, i: nat)
    requires i < |FirstPerSession(seen, log)|
    ensures var a := FirstPerSession(seen, log)[i];
            a.Activate? && a.charge.provider == PROVIDER ==> a.charge.ref !in seen
    decreases |log|
  {
    var e, rest := log[0], log[1..];
    if e.Activate? && e.charge.provider == PROVIDER {
      if e.charge.ref in seen {
        NotSeen(seen, rest, i);
      } else if i > 0 {
        NotSeen(seen + {e.charge.ref}, rest, i - 1);
      }
    } else if i > 0 {
      NotSeen(seen, rest, i - 1);
    }
  }

  /** However the notifications arrived, the ledger is what the first transaction of each session, alone and in
      commit order with everything outside the handlers, would have made of it. */
  lemma OnlyFirstDeliveriesCount(start: World, run: seq<Step>)
    requires Inv(start) && Possible(Start(start), run)
    ensures var end := Play(Start(start), run);
            && Legal(start, FirstPerSession({}, end.attempts))
            && Run(start, FirstPerSession({}, end.attempts)) == end.world
  {
    PlayKeepsWeb(Start(start), start, run);
    RepeatsDoNotCount(start, {}, Play(Start(start), run).attempts);
  }

  // ----- the handler as it runs -----

  /** The payer named by the delivery, registered if need be, has thirty days more for it, and the session's payment
      is on record with the amount and currency of the delivery; everything else is as it was. */
  ghost predicate ActivatesPayer(before: World, after: World, d: Delivery, row: nat) {
    d.payer.Some? && Activates(before, after, d.payer.value, Charge("stripe", d.session, d.amount, d.currency), row)
  }

  /** The handler's transaction: it may fail as a whole, lose to another delivery, or activate. */
  method TryActivation(db: Database, now: int, d: Delivery, fails: bool) returns (reply: Reply, ghost row: nat)
    requires d.payer.Some?
    modifies db
    ensures reply == if fails then ActivationFailed
                     else if Recorded(old(db.payments), ChargeOf(d)) then AlreadyProcessed else Ok
    ensures reply != Ok ==> db.View(now) == old(db.View(now))
    ensures reply == Ok ==> Enabled(old(db.View(now)), AttemptOf(d, row))
                            && db.View(now) == Next(old(db.View(now)), AttemptOf(d, row))
    ensures reply == Ok ==> ActivatesPayer(old(db.View(now)), db.View(now), d, row)
  {
    row := 0;
    if fails {
      return ActivationFailed, row;
    }
    var activated := PaymentService.ActivateSubscription(db, now, d.payer.value, ChargeOf(d));
    if activated.None? {
      return AlreadyProcessed, row;
    }
    reply, row := Ok, activated.value;
  }

  /** One delivery handled without interruption. `confirm` is the telegram id that a confirmation is sent to. */
  method HandleStripeWebhook(db: Database, now: int, d: Delivery, fails: bool)
      returns (reply: Reply, confirm: Option<int>, ghost row: nat)
    modifies db
    ensures var early := EarlyReply(old(db.payments), d);
            reply == if early.Some? then early.value else if fails then ActivationFailed else Ok
    ensures confirm == if reply == Ok then d.payer else None
    ensures reply != Ok ==> db.View(now) == old(db.View(now))
    ensures reply == Ok ==> d.kind in {Completed(true), AsyncSucceeded}
                            && ActivatesPayer(old(db.View(now)), db.View(now), d, row)
    ensures reply == Ok ==> Enabled(old(db.View(now)), AttemptOf(d, row))
                            && db.View(now) == Next(old(db.View(now)), AttemptOf(d, row))
    ensures reply == Ok || reply == AlreadyProcessed ==> Recorded(db.payments, ChargeOf(d))
  {
    confirm, row := None, 0;
    if d.kind == Unhandled {
      return Ignored, None, row;
    }
    var existing := db.GetByProviderRef(ChargeOf(d));
    if existing {
      return AlreadyProcessed, None, row;
    }
    if d.kind == AsyncFailed {
      return PaymentFailed, None, row;
    }
    if d.kind == Completed(false) {
      return AwaitingPayment, None, row;
    }
    if d.payer.None? {
      return UnidentifiedPayer, None, row;
    }
    reply, row := TryActivation(db, now, d, fails);
    if reply == Ok {
      confirm := d.payer;
      NowRecorded(old(db.View(now)), AttemptOf(d, row), ChargeOf(d));
    }
  }
}
