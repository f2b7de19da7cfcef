/** Many rows per user, three activation paths and two jobs behave like one number per user, paid until,
    exactly as long as the removal job has not closed a row that still lies ahead. */
module PaidTime {
  import opened Options
  import opened Clock
  import opened StateMachine
  import opened Rows
  import opened Ledger
  import opened Invariants

  /** `p` is the latest expiry among all rows of the user. */
  ghost predicate IsPaidUntil(subs: seq<Subscription>, user: nat, p: Option<int>) {
    && (forall i :: 0 <= i < |subs| && subs[i].user == user && subs[i].expiresAt.Some? ==>
          p.Some? && subs[i].expiresAt.value <= p.value)
    && (p.Some? ==> exists i :: 0 <= i < |subs| && subs[i].user == user && subs[i].expiresAt == p)
  }

  function PaidUntil(subs: seq<Subscription>, user: nat): (p: Option<int>)
    ensures IsPaidUntil(subs, user, p)
  {
    if subs == [] then None
    else
      var n := |subs| - 1;
      var before := PaidUntil(subs[..n], user);
      var r := subs[n];
      if r.user != user || r.expiresAt.None? then before
      else if before.None? || before.value < r.expiresAt.value then r.expiresAt
      else before
  }

  /** The scalar machine: one purchase at `at` by someone paid until `paid`. */
  function Buy(paid: Option<int>, at: int): Option<int> {
    match paid
    case None => Some(at + PERIOD)
    case Some(p) => Some((if p > at then p else at) + PERIOD)
  }

  function BuyAll(paid: Option<int>, times: seq<int>): Option<int> {
    if times == [] then paid else Buy(BuyAll(paid, times[..|times| - 1]), times[|times| - 1])
  }

  /** When the user's activations took place, according to the history. */
  function PurchaseTimes(acts: seq<Act>, user: nat): seq<int> {
    if acts == [] then []
    else
      var n := |acts| - 1;
      var before := PurchaseTimes(acts[..n], user);
      if acts[n].Granted? && acts[n].user == user then before + [acts[n].at] else before
  }

  /** Whoever is renewed by the event. */
  function Buyer(w: World, e: Event): Option<nat>
    requires Enabled(w, e)
  {
    if RenewedRow(w, e).None? then None
    else match e
         case Activate(telegramId, _, _) => Some(UserId(w.store.users, telegramId))
         case Confirm(row, _) => Some(w.store.subs[row].user)
         case _ => None
  }

  /** `after` is `before` with the user's row `target`, fresh or existing, renewed. */
  ghost predicate RenewsRow(before: seq<Subscription>, after: seq<Subscription>, user: nat, target: nat, now: int) {
    && target <= |before|
    && var extended := WithTarget(before, user, target);
       extended[target].user == user && after == extended[target := ActivatedRow(extended[target], now)]
  }

  /** Renewing puts one row's expiry into the table and changes nothing else. */
  lemma RenewalShape(w: World, e: Event)
    requires WellFormed(w) && Enabled(w, e) && Buyer(w, e).Some?
    ensures RenewsRow(w.store.subs, Next(w, e).store.subs, Buyer(w, e).value, RenewedRow(w, e).value, w.now)
    ensures var subs, user, target := w.store.subs, Buyer(w, e).value, RenewedRow(w, e).value;
            LatestLive(subs, user, target)
            || (!HasLive(subs, user) && (target < |subs| ==> subs[target].status == PENDING))
  {
  }

  /** An event that renews nobody's row leaves every expiry in place, and a new row has none. */
  lemma OtherShape(w: World, e: Event, i: nat)
    requires WellFormed(w) && Enabled(w, e) && Buyer(w, e).None?
    requires i < |Next(w, e).store.subs|
    ensures var subs, r' := w.store.subs, Next(w, e).store.subs[i];
            if i < |subs| then r'.user == subs[i].user && r'.expiresAt == subs[i].expiresAt else r'.expiresAt.None?
  {
    if i < |w.store.subs| {
      RowFrame(w, e, i);
    }
  }

  lemma PaidUntilIsUnique(subs: seq<Subscription>, user: nat, p: Option<int>, q: Option<int>)
    requires IsPaidUntil(subs, user, p) && IsPaidUntil(subs, user, q)
    ensures p == q
  {
  }

  /** The latest expiry depends only on the expiries of the user's own rows. */
  lemma SamePaidUntil(before: seq<Subscription>, after: seq<Subscription>, user: nat, p: Option<int>)
    requires |before| <= |after|
    requires forall i :: 0 <= i < |before| ==> after[i].user == before[i].user
    requires forall i :: 0 <= i < |before| && before[i].user == user ==> after[i].expiresAt == before[i].expiresAt
    requires forall i :: |before| <= i < |after| && after[i].user == user ==> after[i].expiresAt.None?
    requires IsPaidUntil(before, user, p)
    ensures IsPaidUntil(after, user, p)
  {
    if p.Some? {
      var i :| 0 <= i < |before| && before[i].user == user && before[i].expiresAt == p;
      assert after[i].expiresAt == p;
    }
  }

  /** A closed row of the user lies ahead, further than every live one: what an activation renews is not
      what the user is paid until. */
  ghost predicate Outranked(subs: seq<Subscription>, user: nat, now: int) {
    exists i: nat | i < |subs| ::
      && subs[i].user == user && Closed(subs[i]) && subs[i].expiresAt.Some? && subs[i].expiresAt.value > now
      && NoLiveRowReaches(subs, user, subs[i].expiresAt.value)
  }

  ghost predicate NoLiveRowReaches(subs: seq<Subscription>, user: nat, until: int) {
    forall j: nat | j < |subs| && LiveRowOf(subs, user, j) :: subs[j].expiresAt.Some? && subs[j].expiresAt.value < until
  }

  /** No row has an expiry exactly when it is PENDING. */
  ghost predicate ExpiriesOk(subs: seq<Subscription>) {
    forall i: nat | i < |subs| :: subs[i].expiresAt.None? <==> subs[i].status == PENDING
  }

  /** The row an activation chose among the user's: the latest live one, or one that is no row of the user's yet. */
  ghost predicate Chosen(subs: seq<Subscription>, user: nat, target: nat) {
    LatestLive(subs, user, target)
    || (!HasLive(subs, user) && (target < |subs| ==> subs[target].status == PENDING))
  }

  /** The renewed row and the rows before it: the latest of them is the new latest expiry. */
  lemma RenewalMakesMax(before: seq<Subscription>, after: seq<Subscription>, user: nat, target: nat, now: int,
                        p: Option<int>)
    requires RenewsRow(before, after, user, target, now) && IsPaidUntil(before, user, p)
    ensures after[target].expiresAt.Some?
    ensures var renewed := after[target].expiresAt.value;
            IsPaidUntil(after, user, Some(if p.Some? && p.value > renewed then p.value else renewed))
  {
    var renewed := after[target].expiresAt.value;
    assert after[target].user == user;
    if p.Some? {
      var i :| 0 <= i < |before| && before[i].user == user && before[i].expiresAt == p;
      assert i != target ==> after[i] == before[i];
    }
  }

  /** What the user is paid until is what the chosen row lasts until, or is over, exactly unless they are outranked. */
  lemma ChosenIsLatest(subs: seq<Subscription>, user: nat, target: nat, now: int, p: Option<int>)
    requires ExpiriesOk(subs) && Chosen(subs, user, target) && IsPaidUntil(subs, user, p)
    ensures Outranked(subs, user, now) <==>
            p.Some? && p.value > now
            && !(target < |subs| && subs[target].expiresAt.Some? && subs[target].expiresAt.value >= p.value)
  {
    if p.Some? && p.value > now {
      var i: nat :| i < |subs| && subs[i].user == user && subs[i].expiresAt == p;
      if IsLive(subs[i].status) {
        assert LiveRowOf(subs, user, i);
        assert NotBefore(subs[target].expiresAt, subs[i].expiresAt);
      } else if !(target < |subs| && subs[target].expiresAt.Some? && subs[target].expiresAt.value >= p.value) {
        forall j: nat | j < |subs| && LiveRowOf(subs, user, j)
          ensures subs[j].expiresAt.Some? && subs[j].expiresAt.value < p.value
        {
          assert NotBefore(subs[target].expiresAt, subs[j].expiresAt);
        }
        assert Closed(subs[i]) && NoLiveRowReaches(subs, user, p.value);
      }
    }
  }

  /** From `p` to `p'`: thirty days, in microseconds, on top of `p` if that lies ahead and of now otherwise;
      or less if the buyer is outranked. */
  predicate Bought(p: Option<int>, p': Option<int>, now: int, outranked: bool) {
    var thirtyDaysMore := (if p.Some? && p.value > now then p.value else now) + 2_592_000_000_000;
    p'.Some? && if outranked then p'.value < thirtyDaysMore else p'.value == thirtyDaysMore
  }

  /** That is what the scalar machine says. */
  lemma BoughtMeansBuy(p: Option<int>, p': Option<int>, now: int, outranked: bool)
    ensures Bought(p, p', now, outranked) <==>
            p'.Some? && if outranked then p'.value < Buy(p, now).value else p' == Buy(p, now)
  {
    Calendar();
  }

  /** An activation, by any path and from any number of live rows, moves the buyer's paid-until to
      max(now, paid-until) + one period exactly unless the buyer is outranked, and not as far if they are. */
  lemma RenewalIsOnTop(before: seq<Subscription>, after: seq<Subscription>, user: nat, target: nat, now: int,
                       p: Option<int>, p': Option<int>)
    requires RenewsRow(before, after, user, target, now)
    requires ExpiriesOk(before) && Chosen(before, user, target) && IsPaidUntil(before, user, p)
    requires IsPaidUntil(after, user, p')
    ensures Bought(p, p', now, Outranked(before, user, now))
  {
    RenewalMakesMax(before, after, user, target, now, p);
    ChosenIsLatest(before, user, target, now, p);
    var renewed := after[target].expiresAt.value;
    PaidUntilIsUnique(after, user, p', Some(if p.Some? && p.value > renewed then p.value else renewed));
    assert target < |before| && before[target].expiresAt.Some? ==>
             before[target].user == user && p.Some? && before[target].expiresAt.value <= p.value;
  }

  /** Every activation moves the buyer's paid-until to max(now, paid-until) + one period exactly unless a row of theirs
      that the removal job closed too early is in the way, and not as far if it is. Everything else, and everybody
      else, is left alone. */
  lemma StepRefinesScalar(w: World, e: Event, user: nat)
    requires WellFormed(w) && RowsSound(w) && Enabled(w, e)
    ensures var p, p' := PaidUntil(w.store.subs, user), PaidUntil(Next(w, e).store.subs, user);
            if Buyer(w, e) == Some(user) then Bought(p, p', w.now, Outranked(w.store.subs, user, w.now)) else p' == p
  {
    if Buyer(w, e) == Some(user) {
      BuyerStep(w, e);
    } else {
      OthersStep(w, e, user);
    }
  }

  lemma BuyerStep(w: World, e: Event)
    requires WellFormed(w) && RowsSound(w) && Enabled(w, e) && Buyer(w, e).Some?
    ensures var user := Buyer(w, e).value;
            var p, p' := PaidUntil(w.store.subs, user), PaidUntil(Next(w, e).store.subs, user);
            && Bought(p, p', w.now, Outranked(w.store.subs, user, w.now))
            && p'.Some? && p'.value <= Buy(p, w.now).value
            && (p' == Buy(p, w.now) <==> !Outranked(w.store.subs, user, w.now))
  {
    var subs, subs', user := w.store.subs, Next(w, e).store.subs, Buyer(w, e).value;
    SoundExpiries(w);
    RenewalShape(w, e);
    RenewalIsOnTop(subs, subs', user, RenewedRow(w, e).value, w.now, PaidUntil(subs, user), PaidUntil(subs', user));
    BoughtMeansBuy(PaidUntil(subs, user), PaidUntil(subs', user), w.now, Outranked(subs, user, w.now));
  }

  lemma OthersStep(w: World, e: Event, user: nat)
    requires WellFormed(w) && Enabled(w, e) && Buyer(w, e) != Some(user)
    ensures PaidUntil(Next(w, e).store.subs, user) == PaidUntil(w.store.subs, user)
  {
    var subs, subs' := w.store.subs, Next(w, e).store.subs;
    var p := PaidUntil(subs, user);
    if Buyer(w, e).Some? {
      RenewalShape(w, e);
      assert forall i :: 0 <= i < |subs| && i != RenewedRow(w, e).value ==> subs'[i] == subs[i];
    } else {
      assert |subs| <= |subs'|;
      forall i: nat | i < |subs'|
        ensures if i < |subs| then subs'[i].user == subs[i].user && subs'[i].expiresAt == subs[i].expiresAt
                else subs'[i].expiresAt.None?
      {
        OtherShape(w, e, i);
      }
    }
    SamePaidUntil(subs, subs', user, p);
    PaidUntilIsUnique(subs', user, PaidUntil(subs', user), p);
  }

  lemma SoundExpiries(w: World)
    requires RowsSound(w)
    ensures ExpiriesOk(w.store.subs)
  {
    forall i: nat | i < |w.store.subs|
      ensures w.store.subs[i].expiresAt.None? <==> w.store.subs[i].status == PENDING
    {
      assert Sound(StateOf(w, i), Cycle(w.acts, i), w.now);
    }
  }

  /** The user's rows say exactly what the scalar machine says, started at `start` and fed the user's purchases. */
  ghost predicate AgreesWithScalar(w: World, user: nat, start: Option<int>) {
    PaidUntil(w.store.subs, user) == BuyAll(start, PurchaseTimes(w.acts, user))
  }

  /** The times are in order and none lies ahead. */
  ghost predicate Ordered(times: seq<int>, now: int) {
    && (forall i, j :: 0 <= i < j < |times| ==> times[i] <= times[j])
    && (forall i :: 0 <= i < |times| ==> times[i] <= now)
  }

  ghost predicate Chronological(w: World, user: nat) {
    Ordered(PurchaseTimes(w.acts, user), w.now)
  }

  lemma OrderedOneMore(times: seq<int>, now: int, later: int)
    requires Ordered(times, now) && now <= later
    ensures Ordered(times + [], later) && Ordered(times + [now], later)
  {
  }

  lemma PurchasesOneMore(acts: seq<Act>, act: Act, user: nat)
    ensures PurchaseTimes(acts + [act], user) ==
            PurchaseTimes(acts, user) + (if act.Granted? && act.user == user then [act.at] else [])
  {
    assert (acts + [act])[..|acts|] == acts;
    assert PurchaseTimes(acts, user) + [] == PurchaseTimes(acts, user);
  }

  /** The entry an event adds to the history. */
  function ActOf(w: World, e: Event): Option<Act>
    requires Enabled(w, e)
  {
    var n := |w.acts|;
    if |Next(w, e).acts| > n then Some(Next(w, e).acts[n]) else None
  }

  lemma OneActAtMost(w: World, e: Event)
    requires Enabled(w, e)
    ensures var act := ActOf(w, e);
            && Next(w, e).acts == (if act.Some? then w.acts + [act.value] else w.acts)
            && (if act.Some? && act.value.Granted? then Buyer(w, e) == Some(act.value.user) && act.value.at == w.now
                else Buyer(w, e).None?)
    ensures w.now <= Next(w, e).now
  {
  }

  /** An event adds at most one entry to the history, and a grant exactly when it renews a row. */
  lemma StepActs(w: World, e: Event, user: nat)
    requires Enabled(w, e)
    ensures w.now <= Next(w, e).now
    ensures PurchaseTimes(Next(w, e).acts, user) ==
            PurchaseTimes(w.acts, user) + (if Buyer(w, e) == Some(user) then [w.now] else [])
  {
    OneActAtMost(w, e);
    if ActOf(w, e).Some? {
      PurchasesOneMore(w.acts, ActOf(w, e).value, user);
    } else {
      assert PurchaseTimes(w.acts, user) + [] == PurchaseTimes(w.acts, user);
    }
  }

  lemma BuyOneMore(start: Option<int>, times: seq<int>, at: int)
    ensures BuyAll(start, times + [at]) == Buy(BuyAll(start, times), at)
  {
    assert (times + [at])[..|times|] == times;
  }

  /** One event, seen from a world in which the table agrees with the scalar. */
  lemma StepAgreesExactly(w: World, e: Event, user: nat, start: Option<int>)
    requires WellFormed(w) && RowsSound(w) && Enabled(w, e) && AgreesWithScalar(w, user, start)
    ensures AgreesWithScalar(Next(w, e), user, start) <==>
            !(Buyer(w, e) == Some(user) && Outranked(w.store.subs, user, w.now))
  {
    var times := PurchaseTimes(w.acts, user);
    StepActs(w, e, user);
    if Buyer(w, e) == Some(user) {
      BuyerStep(w, e);
      BuyOneMore(start, times, w.now);
    } else {
      OthersStep(w, e, user);
      assert times + [] == times;
    }
  }

  lemma StepKeepsChronology(w: World, e: Event, user: nat)
    requires Enabled(w, e) && Chronological(w, user)
    ensures Chronological(Next(w, e), user)
  {
    StepActs(w, e, user);
    OrderedOneMore(PurchaseTimes(w.acts, user), w.now, Next(w, e).now);
  }

  /** Whenever the user buys in the run, no closed row of theirs outranks the row that is renewed. */
  ghost predicate StaysInFront(w: World, run: seq<Event>, user: nat)
    requires Legal(w, run)
    decreases |run|
  {
    run == [] || (!(Buyer(w, run[0]) == Some(user) && Outranked(w.store.subs, user, w.now))
                  && StaysInFront(Next(w, run[0]), run[1..], user))
  }

  lemma {:induction false} StaysInFrontOverBoth(w: World, a: seq<Event>, b: seq<Event>, user: nat)
    requires Legal(w, a) && Legal(Run(w, a), b)
    ensures Legal(w, a + b)
    ensures StaysInFront(w, a + b, user) <==> StaysInFront(w, a, user) && StaysInFront(Run(w, a), b, user)
    decreases |a|
  {
    if a == [] {
      assert a + b == b;
    } else {
      StaysInFrontOverBoth(Next(w, a[0]), a[1..], b, user);
      RunCons(w, a[0], a[1..] + b);
      ConsConcat(a, b);
    }
  }

  /** The table agrees with the scalar before the run and after each of its events. */
  ghost predicate AgreesThroughout(w: World, run: seq<Event>, user: nat, start: Option<int>)
    requires Legal(w, run)
    decreases |run|
  {
    AgreesWithScalar(w, user, start) && (run == [] || AgreesThroughout(Next(w, run[0]), run[1..], user, start))
  }

  /** Over every run, from any start, users with several live rows included, and with the jobs' transactions
      interleaved in any way, the whole table refines one scalar per user exactly as long as the user stays in front. */
  lemma {:induction false} RunRefinesScalar(w: World, run: seq<Event>, user: nat, start: Option<int>)
    requires Inv(w) && RowsSound(w) && Legal(w, run)
    requires AgreesWithScalar(w, user, start) && Chronological(w, user)
    ensures AgreesThroughout(w, run, user, start) <==> StaysInFront(w, run, user)
    ensures AgreesThroughout(w, run, user, start) ==> AgreesWithScalar(Run(w, run), user, start)
    ensures Chronological(Run(w, run), user)
    decreases |run|
  {
    if run != [] {
      var next := Next(w, run[0]);
      StepAgreesExactly(w, run[0], user, start);
      StepKeepsChronology(w, run[0], user);
      StepKeepsInv(w, run[0]);
      StepKeepsRows(w, run[0]);
      if AgreesWithScalar(next, user, start) {
        RunRefinesScalar(next, run[1..], user, start);
      } else {
        ChronologyOverRun(next, run[1..], user);
      }
    }
  }

  lemma {:induction false} ChronologyOverRun(w: World, run: seq<Event>, user: nat)
    requires Legal(w, run) && Chronological(w, user)
    ensures Chronological(Run(w, run), user)
    decreases |run|
  {
    if run != [] {
      StepKeepsChronology(w, run[0], user);
      ChronologyOverRun(Next(w, run[0]), run[1..], user);
    }
  }

  /** `p` is not later than `q`. */
  predicate NotLater(p: Option<int>, q: Option<int>) {
    p.Some? ==> q.Some? && p.value <= q.value
  }

  lemma BuyKeepsNotLater(p: Option<int>, q: Option<int>, p': Option<int>, now: int)
    requires NotLater(p, q) && p'.Some? && p'.value <= Buy(p, now).value
    ensures NotLater(p', Buy(q, now))
  {
  }

  lemma StepNotLater(w: World, e: Event, user: nat, start: Option<int>)
    requires WellFormed(w) && RowsSound(w) && Enabled(w, e)
    requires NotLater(PaidUntil(w.store.subs, user), BuyAll(start, PurchaseTimes(w.acts, user)))
    ensures NotLater(PaidUntil(Next(w, e).store.subs, user), BuyAll(start, PurchaseTimes(Next(w, e).acts, user)))
  {
    var times := PurchaseTimes(w.acts, user);
    var p, p' := PaidUntil(w.store.subs, user), PaidUntil(Next(w, e).store.subs, user);
    StepActs(w, e, user);
    if Buyer(w, e) == Some(user) {
      BuyerStep(w, e);
      BuyOneMore(start, times, w.now);
      BuyKeepsNotLater(p, BuyAll(start, times), p', w.now);
    } else {
      OthersStep(w, e, user);
      assert times + [] == times;
    }
  }

  /** In front or not, nobody ever has more than what they bought. */
  lemma {:induction false} NeverMoreThanBought(w: World, run: seq<Event>, user: nat, start: Option<int>)
    requires Inv(w) && RowsSound(w) && Legal(w, run)
    requires NotLater(PaidUntil(w.store.subs, user), BuyAll(start, PurchaseTimes(w.acts, user)))
    ensures var w' := Run(w, run);
            NotLater(PaidUntil(w'.store.subs, user), BuyAll(start, PurchaseTimes(w'.acts, user)))
    decreases |run|
  {
    if run != [] {
      StepNotLater(w, run[0], user, start);
      StepKeepsInv(w, run[0]);
      StepKeepsRows(w, run[0]);
      NeverMoreThanBought(Next(w, run[0]), run[1..], user, start);
    }
  }

  // ----- the time a user has bought -----

  datatype Window = Window(from: int, until: int)

  /** The period granted for a purchase at `at` by someone paid until `paid`. */
  function Granting(paid: Option<int>, at: int): Window {
    var from := if paid.Some? && paid.value > at then paid.value else at;
    Window(from, from + PERIOD)
  }

  /** The periods the scalar machine grants, one per purchase. */
  function Windows(start: Option<int>, times: seq<int>): (ws: seq<Window>)
    ensures |ws| == |times|
  {
    if times == [] then []
    else
      var n := |times| - 1;
      Windows(start, times[..n]) + [Granting(BuyAll(start, times[..n]), times[n])]
  }

  lemma WindowsOneMore(start: Option<int>, times: seq<int>, at: int)
    ensures Windows(start, times + [at]) == Windows(start, times) + [Granting(BuyAll(start, times), at)]
    ensures BuyAll(start, times + [at]) == Some(Granting(BuyAll(start, times), at).until)
  {
    assert (times + [at])[..|times|] == times;
  }

  /** Each window is one period long and starts no earlier than its purchase or the end of the one before. */
  ghost predicate InARow(ws: seq<Window>, times: seq<int>) {
    && |ws| == |times|
    && (forall i :: 0 <= i < |ws| ==> ws[i].until == ws[i].from + PERIOD && times[i] <= ws[i].from)
    && (forall i :: 0 < i < |ws| ==> ws[i - 1].until <= ws[i].from)
  }

  lemma InARowOneMore(ws: seq<Window>, times: seq<int>, next: Window, at: int)
    requires InARow(ws, times)
    requires next.until == next.from + PERIOD && at <= next.from && (ws != [] ==> ws[|ws| - 1].until <= next.from)
    ensures InARow(ws + [next], times + [at])
  {
  }

  /** The windows lie in a row, from what was paid at the start up to what is paid now. */
  ghost predicate Spans(start: Option<int>, times: seq<int>, ws: seq<Window>, paid: Option<int>) {
    && InARow(ws, times)
    && paid == (if ws == [] then start else Some(ws[|ws| - 1].until))
    && (start.Some? && ws != [] ==> start.value <= ws[0].from)
  }

  lemma SpansOneMore(start: Option<int>, times: seq<int>, ws: seq<Window>, paid: Option<int>, at: int)
    requires Spans(start, times, ws, paid)
    ensures Spans(start, times + [at], ws + [Granting(paid, at)], Some(Granting(paid, at).until))
  {
    InARowOneMore(ws, times, Granting(paid, at), at);
  }

  lemma {:induction false} WindowsSpan(start: Option<int>, times: seq<int>)
    ensures Spans(start, times, Windows(start, times), BuyAll(start, times))
    decreases |times|
  {
    if times != [] {
      var before, at := times[..|times| - 1], times[|times| - 1];
      WindowsSpan(start, before);
      SpansOneMore(start, before, Windows(start, before), BuyAll(start, before), at);
      WindowsOneMore(start, before, at);
      assert times == before + [at];
    }
  }

  lemma {:induction false} InARowMeansApart(ws: seq<Window>, i: nat, j: nat)
    requires forall k :: 0 <= k < |ws| ==> ws[k].until == ws[k].from + PERIOD
    requires forall k :: 0 < k < |ws| ==> ws[k - 1].until <= ws[k].from
    requires i < j < |ws|
    ensures ws[i].until <= ws[j].from
    decreases j
  {
    if i < j - 1 {
      InARowMeansApart(ws, i, j - 1);
    }
  }

  /** No paid day is granted twice or lost: every window is thirty days long, in microseconds, none starts before
      its purchase, no two overlap, and the last one ends where paid-until says. */
  lemma WindowsConserveTime(start: Option<int>, times: seq<int>)
    ensures var ws := Windows(start, times);
            && (forall i :: 0 <= i < |ws| ==>
                  ws[i].until == ws[i].from + 2_592_000_000_000 && times[i] <= ws[i].from)
            && (forall i, j :: 0 <= i < j < |ws| ==> ws[i].until <= ws[j].from)
            && (ws != [] ==> BuyAll(start, times) == Some(ws[|ws| - 1].until))
            && (start.Some? && ws != [] ==> start.value <= ws[0].from)
  {
    WindowsSpan(start, times);
    Calendar();
    var ws := Windows(start, times);
    forall i, j | 0 <= i < j < |ws| ensures ws[i].until <= ws[j].from {
      InARowMeansApart(ws, i, j);
    }
  }

  /** `r` is the latest of "bought at t, and everything from then on back to back", and of the same from the start. */
  ghost predicate LatestBackToBack(start: Option<int>, times: seq<int>, r: int) {
    var n := |times|;
    && (forall i :: 0 <= i < n ==> times[i] + (n - i) * PERIOD <= r)
    && (start.Some? ==> start.value + n * PERIOD <= r)
    && ((exists i :: 0 <= i < n && r == times[i] + (n - i) * PERIOD)
        || (start.Some? && r == start.value + n * PERIOD))
  }

  lemma LatestOneMore(start: Option<int>, times: seq<int>, at: int, paid: int)
    requires LatestBackToBack(start, times, paid)
    ensures LatestBackToBack(start, times + [at], Buy(Some(paid), at).value)
  {
    var more, n := times + [at], |times|;
    assert forall i :: 0 <= i < n ==> more[i] == times[i];
    if paid <= at {
      assert Buy(Some(paid), at).value == more[n] + (n + 1 - n) * PERIOD;
    } else if i :| 0 <= i < n && paid == times[i] + (n - i) * PERIOD {
      assert paid + PERIOD == more[i] + (n + 1 - i) * PERIOD;
    }
  }

  lemma FirstPurchase(start: Option<int>, at: int)
    ensures LatestBackToBack(start, [at], Buy(start, at).value)
  {
    assert [at][0] + (1 - 0) * PERIOD == at + PERIOD;
  }

  /** Paid-until in closed form: the latest of "bought at t, and everything from then on back to back". */
  lemma {:induction false} PaidUntilClosedForm(start: Option<int>, times: seq<int>)
    requires times != []
    ensures BuyAll(start, times).Some? && LatestBackToBack(start, times, BuyAll(start, times).value)
    decreases |times|
  {
    var n := |times| - 1;
    var before, at := times[..n], times[n];
    assert times == before + [at];
    if before != [] {
      PaidUntilClosedForm(start, before);
      LatestOneMore(start, before, at, BuyAll(start, before).value);
    } else {
      assert BuyAll(start, before) == start;
      FirstPurchase(start, at);
    }
  }

  /** The instant is covered by what was paid before the history starts, or by a window. */
  ghost predicate Covered(start: Option<int>, ws: seq<Window>, now: int) {
    (start.Some? && now < start.value) || exists i :: 0 <= i < |ws| && ws[i].from <= now < ws[i].until
  }

  lemma CoveredOneMore(start: Option<int>, ws: seq<Window>, next: Window, now: int)
    ensures Covered(start, ws + [next], now) <==> Covered(start, ws, now) || next.from <= now < next.until
  {
    var more := ws + [next];
    assert forall i :: 0 <= i < |ws| ==> more[i] == ws[i];
    assert more[|ws|] == next;
  }

  /** Someone is paid up at an instant exactly when the instant falls in a granted window,
      or in what was paid before the history starts. */
  lemma {:induction false} PaidUpMeansInAWindow(start: Option<int>, times: seq<int>, now: int)
    requires forall i :: 0 <= i < |times| ==> times[i] <= now
    ensures var r := BuyAll(start, times);
            (r.Some? && now < r.value) <==> Covered(start, Windows(start, times), now)
    decreases |times|
  {
    if times != [] {
      var before, at := times[..|times| - 1], times[|times| - 1];
      PaidUpMeansInAWindow(start, before, now);
      WindowsOneMore(start, before, at);
      CoveredOneMore(start, Windows(start, before), Granting(BuyAll(start, before), at), now);
      assert times == before + [at];
    }
  }

  ghost predicate PaidUp(w: World, user: nat) {
    var p := PaidUntil(w.store.subs, user);
    p.Some? && p.value > w.now
  }

  // ----- access -----

  /** A row of the user was closed although it had been renewed after the removal job listed it. */
  ghost predicate HasWalkedRow(w: World, user: nat) {
    exists i: nat | i < |w.store.subs| :: w.store.subs[i].user == user && WalkedThoughRenewed(StateOf(w, i))
  }

  /** Such a row still lies ahead. */
  ghost predicate WalkedAhead(w: World, user: nat) {
    exists i: nat | i < |w.store.subs| ::
      && w.store.subs[i].user == user && WalkedThoughRenewed(StateOf(w, i))
      && w.store.subs[i].expiresAt.Some? && w.store.subs[i].expiresAt.value > w.now
  }

  /** The status columns agree with the clock, but for rows closed too early: a user is paid up exactly when
      a live row of theirs outlasts now, or such a closed one does. */
  lemma PaidUpExactly(w: World, user: nat)
    requires RowsSound(w)
    ensures PaidUp(w, user) <==> LiveBeyond(w.store.subs, user, w.now) || WalkedAhead(w, user)
  {
    var subs := w.store.subs;
    var p := PaidUntil(subs, user);
    if p.Some? && p.value > w.now {
      var i: nat :| i < |subs| && subs[i].user == user && subs[i].expiresAt == p;
      assert Sound(StateOf(w, i), Cycle(w.acts, i), w.now);
      if IsLive(subs[i].status) {
        assert LiveRowOf(subs, user, i);
      } else {
        assert WalkedThoughRenewed(StateOf(w, i));
      }
    }
  }

  /** In a sound world looking at the latest live row is enough. */
  lemma AccessSeenExactly(w: World, user: nat)
    requires RowsSound(w)
    ensures AccessSeen(w.store.subs, user, w.now) <==> LiveBeyond(w.store.subs, user, w.now)
  {
    SoundExpiries(w);
  }

  /** Only a row closed too early can outrank. */
  lemma OutrankedMeansWalkedAhead(w: World, user: nat)
    requires RowsSound(w) && Outranked(w.store.subs, user, w.now)
    ensures WalkedAhead(w, user) && HasWalkedRow(w, user)
  {
    var subs := w.store.subs;
    var i: nat :| i < |subs| && subs[i].user == user && Closed(subs[i]) && subs[i].expiresAt.Some?
                  && subs[i].expiresAt.value > w.now && NoLiveRowReaches(subs, user, subs[i].expiresAt.value);
    assert Sound(StateOf(w, i), Cycle(w.acts, i), w.now);
    assert WalkedThoughRenewed(StateOf(w, i));
  }

  lemma WalkedRowStays(w: World, e: Event, user: nat)
    requires Enabled(w, e) && HasWalkedRow(w, user)
    ensures HasWalkedRow(Next(w, e), user)
  {
    var i: nat :| i < |w.store.subs| && w.store.subs[i].user == user && WalkedThoughRenewed(StateOf(w, i));
    RowStep(w, e, i);
    RowFrame(w, e, i);
    assert WalkedThoughRenewed(StateOf(Next(w, e), i));
  }

  /** A user none of whose rows has been closed too early has stayed in front all along. */
  lemma {:induction false} UnwalkedStaysInFront(w: World, run: seq<Event>, user: nat)
    requires Inv(w) && RowsSound(w) && Legal(w, run) && !HasWalkedRow(Run(w, run), user)
    ensures StaysInFront(w, run, user) && !HasWalkedRow(w, user)
    decreases |run|
  {
    if run != [] {
      StepKeepsInv(w, run[0]);
      StepKeepsRows(w, run[0]);
      UnwalkedStaysInFront(Next(w, run[0]), run[1..], user);
      if HasWalkedRow(w, user) {
        WalkedRowStays(w, run[0], user);
      }
      if Outranked(w.store.subs, user, w.now) {
        OutrankedMeansWalkedAhead(w, user);
      }
    }
  }

  /** End to end: in every world reached from a fresh history, whoever has access beyond now has bought it; and as long
      as the user stays in front, now lies inside one of the disjoint periods bought so far, or inside what the table
      granted at the start, exactly when the user has access, or lost it to a row closed too early. */
  lemma AccessIsWhatWasBought(w: World, run: seq<Event>, user: nat)
    requires Inv(w) && RowsSound(w) && Legal(w, run) && w.acts == []
    ensures var start, w' := PaidUntil(w.store.subs, user), Run(w, run);
            var covered := Covered(start, Windows(start, PurchaseTimes(w'.acts, user)), w'.now);
            && (LiveBeyond(w'.store.subs, user, w'.now) ==> covered)
            && (StaysInFront(w, run, user) ==>
                  (covered <==> LiveBeyond(w'.store.subs, user, w'.now) || WalkedAhead(w', user)))
            && (!HasWalkedRow(w', user) ==> (covered <==> LiveBeyond(w'.store.subs, user, w'.now)))
  {
    var start, w' := PaidUntil(w.store.subs, user), Run(w, run);
    RunRefinesScalar(w, run, user, start);
    NeverMoreThanBought(w, run, user, start);
    RunKeepsRows(w, run);
    PaidUpExactly(w', user);
    PaidUpMeansInAWindow(start, PurchaseTimes(w'.acts, user), w'.now);
    if !HasWalkedRow(w', user) {
      UnwalkedStaysInFront(w, run, user);
    }
  }
}
