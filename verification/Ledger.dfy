/** The three tables, and the effect of every committed transaction on them.
    A row's id is its index: rows are only ever appended, none is deleted. */
module Ledger {
  import opened Options
  import opened Clock
  import opened StateMachine
  import opened Rows

  /** What was paid: the first two fields are the unique key of a payment. The amount is in minor units. */
  datatype Charge = Charge(provider: string, ref: string, amount: int, currency: string)

  datatype Payment = Payment(sub: nat, charge: Charge)

  /** `users[u]` is the telegram id of user `u`. */
  datatype Store = Store(users: seq<int>, subs: seq<Subscription>, payments: seq<Payment>)

  /** What the ledger did for a subscriber, in order: an activation of a row, at an instant and up to another,
      or a reminder delivered. */
  datatype Act =
    | Granted(user: nat, row: nat, at: int, until: int, charge: Charge)
    | Reminded(row: nat, days: int)

  /** The store at an instant. `drafts` are the placeholders whose payment is still to be recorded by the
      handler that created them; `acts` is the history of what has been done; `jobs` is where the daily jobs
      stand with each row they have listed, or that was renewed. */
  datatype World = World(store: Store, now: int, drafts: set<nat>, acts: seq<Act>, jobs: map<nat, RowJobs>)

  function JobsAt(jobs: map<nat, RowJobs>, i: nat): RowJobs {
    if i in jobs then jobs[i] else NO_JOBS
  }

  function StateOf(w: World, i: nat): RowState
    requires i < |w.store.subs|
  {
    RowState(w.store.subs[i], JobsAt(w.jobs, i))
  }

  // ----- queries -----

  predicate LiveRowOf(subs: seq<Subscription>, user: nat, i: nat) {
    i < |subs| && IsLive(subs[i].status) && subs[i].user == user
  }

  /** Descending order of expiry, a missing expiry first, as the production database sorts it. */
  predicate NotBefore(a: Option<int>, b: Option<int>) {
    a.None? || (b.Some? && a.value >= b.value)
  }

  /** Row `i` may come first when the user's live rows are ordered by descending expiry. */
  predicate LatestLive(subs: seq<Subscription>, user: nat, i: nat) {
    && LiveRowOf(subs, user, i)
    && forall j: nat | j < |subs| && LiveRowOf(subs, user, j) :: NotBefore(subs[i].expiresAt, subs[j].expiresAt)
  }

  predicate HasLive(subs: seq<Subscription>, user: nat) {
    exists j: nat | j < |subs| :: LiveRowOf(subs, user, j)
  }

  /** The user has access that lasts beyond `now`. */
  predicate LiveBeyond(subs: seq<Subscription>, user: nat, now: int) {
    exists j: nat | j < |subs| :: LiveRowOf(subs, user, j) && subs[j].expiresAt.Some? && subs[j].expiresAt.value > now
  }

  /** What a look at the latest live row alone finds: access beyond now, unless a missing expiry comes first. */
  predicate AccessSeen(subs: seq<Subscription>, user: nat, now: int) {
    && LiveBeyond(subs, user, now)
    && forall j: nat | j < |subs| && LiveRowOf(subs, user, j) :: subs[j].expiresAt.Some?
  }

  /** The row an activation renews: the latest live row, or the given row when there is none. */
  predicate IsTarget(subs: seq<Subscription>, user: nat, otherwise: nat, target: nat) {
    if HasLive(subs, user) then LatestLive(subs, user, target) else target == otherwise
  }

  predicate SameKey(a: Charge, b: Charge) {
    a.provider == b.provider && a.ref == b.ref
  }

  predicate Recorded(payments: seq<Payment>, c: Charge) {
    exists k :: 0 <= k < |payments| && SameKey(payments[k].charge, c)
  }

  /** The first payment that points at row `i`. */
  function OwnedBy(payments: seq<Payment>, i: nat): (r: Option<nat>)
    ensures r.None? ==> forall k :: 0 <= k < |payments| ==> payments[k].sub != i
    ensures r.Some? ==> r.value < |payments| && payments[r.value].sub == i
    ensures r.Some? ==> forall k :: 0 <= k < r.value ==> payments[k].sub != i
  {
    if payments == [] then None
    else
      var n := |payments| - 1;
      var before := OwnedBy(payments[..n], i);
      if before.Some? then before else if payments[n].sub == i then Some(n) else None
  }

  /** The id of the user with this telegram id; the next free id when there is no such user. */
  function UserId(users: seq<int>, telegramId: int): (u: nat)
    ensures u <= |users|
    ensures u < |users| ==> users[u] == telegramId
    ensures u == |users| <==> telegramId !in users
  {
    if users == [] then 0
    else if users[0] == telegramId then 0
    else 1 + UserId(users[1..], telegramId)
  }

  // ----- writes -----

  function EnsureUser(users: seq<int>, telegramId: int): seq<int> {
    if telegramId in users then users else users + [telegramId]
  }

  /** All payments of row `source` moved onto row `target`. */
  function Repointed(payments: seq<Payment>, source: nat, target: nat): (r: seq<Payment>)
    ensures |r| == |payments|
  {
    seq(|payments|, k requires 0 <= k < |payments| =>
      if payments[k].sub == source then payments[k].(sub := target) else payments[k])
  }

  predicate InRange(ids: seq<nat>, n: nat) {
    forall a :: 0 <= a < |ids| ==> ids[a] < n
  }

  /** The query for rows to close: every expired live row once, in any order. */
  ghost predicate ListsExpired(subs: seq<Subscription>, now: int, ids: seq<nat>) {
    && (forall a, b :: 0 <= a < b < |ids| ==> ids[a] != ids[b])
    && InRange(ids, |subs|)
    && (forall a :: 0 <= a < |ids| ==> Expired(subs[ids[a]], now))
    && (forall i: nat :: i < |subs| && Expired(subs[i], now) ==> i in ids)
  }

  /** The query for rows to remind: every live row that expires within the window, once, in any order. */
  ghost predicate ListsDue(subs: seq<Subscription>, now: int, ids: seq<nat>) {
    && (forall a, b :: 0 <= a < b < |ids| ==> ids[a] != ids[b])
    && InRange(ids, |subs|)
    && (forall a :: 0 <= a < |ids| ==> Due(subs[ids[a]], now))
    && (forall i: nat :: i < |subs| && Due(subs[i], now) ==> i in ids)
  }

  datatype Warning = Warning(row: Subscription, sent: Option<int>)

  /** An uninterrupted visit of the reminder job at one row: `listed` is the row as the query returned it, `current`
      the row as it is now, `delivered` whether the message goes through. */
  function Warn(current: Subscription, listed: Subscription, now: int, delivered: bool): Warning
    requires listed.expiresAt.Some?
  {
    var days := DaysRemaining(listed.expiresAt.value, now);
    if !(1 <= days <= WARNING_WINDOW_DAYS) then
      Warning(current, None)
    else if listed.status == ACTIVE && !CanTransition(current.status, EXPIRING) then
      Warning(current, None)
    else
      var marked := if listed.status == ACTIVE then current.(status := EXPIRING) else current;
      var seen := if listed.status == ACTIVE then marked else listed;
      if (seen.lastWarning.Some? && seen.lastWarning.value <= days) || !delivered then
        Warning(marked, None)
      else
        Warning(marked.(lastWarning := Some(days)), Some(days))
  }

  // ----- events -----

  /** One committed transaction, an attempt that was turned away, or a call of a job. */
  datatype Event =
    | Tick(until: int)
      // The three transactions of a screenshot.
    | Register(telegramId: int)
    | Draft(user: nat)
    | Attach(row: nat, charge: Charge)
      // A paid checkout or an administrator's grant; `target` is the row it renews.
    | Activate(telegramId: int, charge: Charge, target: nat)
      // The administrator confirms the screenshot behind a placeholder.
    | Confirm(row: nat, target: nat)
      // The reminder job at one row: listed, moved, reminded, recorded.
    | TakeDue(row: nat)
    | VisitHop(row: nat)
    | VisitSend(row: nat, delivered: bool)
    | VisitRecord(row: nat)
      // The removal job at one row: listed, then one hop, check, lookup or ban at a time, or found exempt.
    | TakeExpired(row: nat)
    | KickStep(row: nat)
    | KickExempt(row: nat)

  predicate Confirmable(s: Store, i: nat) {
    i < |s.subs| && s.subs[i].status == PENDING && OwnedBy(s.payments, i).Some?
  }

  predicate IsJob(e: Event) {
    e.TakeDue? || e.VisitHop? || e.VisitSend? || e.VisitRecord? || e.TakeExpired? || e.KickStep? || e.KickExempt?
  }

  /** What the removal job does next at row `i`; at the check it looks for other access of the row's owner. */
  function KickEvent(w: World, i: nat): RowEvent
    requires i < |w.store.subs|
  {
    var point, user := JobsAt(w.jobs, i).kick.point, w.store.subs[i].user;
    if point == AtCheck then
      KickDecides(user >= |w.store.users| || AccessSeen(w.store.subs, user, w.now), |w.acts|)
    else if point == AtLookup then KickLooksUp
    else if point == AtBan then KickBans
    else KickHops
  }

  /** What a job's event does to the row it names. */
  function JobEvent(w: World, e: Event): RowEvent
    requires IsJob(e) && e.row < |w.store.subs|
  {
    match e
    case TakeDue(_) => TakenDue
    case VisitHop(_) => VisitHops
    case VisitSend(_, delivered) => VisitSends(delivered)
    case VisitRecord(_) => VisitRecords
    case TakeExpired(_) => TakenExpired
    case KickStep(row) => KickEvent(w, row)
    case KickExempt(_) => KickSpares
  }

  predicate Enabled(w: World, e: Event) {
    var s := w.store;
    if IsJob(e) then
      && e.row < |s.subs| && CanRow(StateOf(w, e.row), JobEvent(w, e), w.now)
      && (e.VisitSend? && e.delivered ==> s.subs[e.row].user < |s.users|)
    else
      match e
      case Tick(to) => w.now <= to
      case Register(_) => true
      case Draft(user) => user < |s.users|
      case Attach(row, _) => row in w.drafts
      case Activate(telegramId, charge, target) =>
        Recorded(s.payments, charge) || IsTarget(s.subs, UserId(s.users, telegramId), |s.subs|, target)
      case Confirm(row, target) =>
        Confirmable(s, row) ==> IsTarget(s.subs, s.subs[row].user, row, target)
  }

  /** The table with a fresh placeholder appended when `target` is the next free id. */
  function WithTarget(subs: seq<Subscription>, user: nat, target: nat): seq<Subscription> {
    if target < |subs| then subs else subs + [Placeholder(user)]
  }

  /** A job's event changes one row, and where the job stands with it. */
  function AtRow(w: World, i: nat, ev: RowEvent): World
    requires i < |w.store.subs| && CanRow(StateOf(w, i), ev, w.now)
  {
    var st := RowAfter(StateOf(w, i), ev, w.now);
    w.(store := w.store.(subs := w.store.subs[i := st.row]), jobs := w.jobs[i := st.jobs])
  }

  /** Row `target` of `subs` renewed for the user, for the given payment. */
  function Grant(w: World, s: Store, user: nat, target: nat, charge: Charge): World
    requires target < |s.subs|
  {
    var row := ActivatedRow(s.subs[target], w.now);
    w.(store := s.(subs := s.subs[target := row]),
       acts := w.acts + [Granted(user, target, w.now, row.expiresAt.value, charge)],
       jobs := w.jobs[target := JobsRenewed(JobsAt(w.jobs, target))])
  }

  function Next(w: World, e: Event): World
    requires Enabled(w, e)
  {
    var s := w.store;
    if IsJob(e) then
      var reminded := if e.VisitSend? && e.delivered then [Reminded(e.row, JobsAt(w.jobs, e.row).visit.point.days)]
                      else [];
      AtRow(w, e.row, JobEvent(w, e)).(acts := w.acts + reminded)
    else
      match e
      case Tick(to) => w.(now := to)
      case Register(telegramId) => w.(store := s.(users := EnsureUser(s.users, telegramId)))
      case Draft(user) => w.(store := s.(subs := s.subs + [Placeholder(user)]), drafts := w.drafts + {|s.subs|})
      case Attach(row, charge) =>
        var payments := if Recorded(s.payments, charge) then s.payments else s.payments + [Payment(row, charge)];
        w.(store := s.(payments := payments), drafts := w.drafts - {row})
      case Activate(telegramId, charge, target) =>
        if Recorded(s.payments, charge) then w
        else
          var user := UserId(s.users, telegramId);
          var paid := Store(EnsureUser(s.users, telegramId), WithTarget(s.subs, user, target),
                            s.payments + [Payment(target, charge)]);
          Grant(w, paid, user, target, charge)
      case Confirm(row, target) =>
        if !Confirmable(s, row) then w
        else
          var charge := s.payments[OwnedBy(s.payments, row).value].charge;
          var paid := s.(payments := if target == row then s.payments else Repointed(s.payments, row, target));
          Grant(w, paid, s.subs[row].user, target, charge)
  }

  /** The world after a screenshot's three transactions. */
  function AfterScreenshot(w: World, telegramId: int, charge: Charge): World {
    var registered := Next(w, Register(telegramId));
    var drafted := Next(registered, Draft(UserId(w.store.users, telegramId)));
    Next(drafted, Attach(|w.store.subs|, charge))
  }

  /** Every event of the run can happen when its turn comes. */
  ghost predicate Legal(w: World, run: seq<Event>)
    decreases |run|
  {
    run == [] || (Enabled(w, run[0]) && Legal(Next(w, run[0]), run[1..]))
  }

  ghost function Run(w: World, run: seq<Event>): World
    requires Legal(w, run)
    decreases |run|
  {
    if run == [] then w else Run(Next(w, run[0]), run[1..])
  }

  lemma RunCons(w: World, e: Event, rest: seq<Event>)
    requires Enabled(w, e) && Legal(Next(w, e), rest)
    ensures Legal(w, [e] + rest) && Run(w, [e] + rest) == Run(Next(w, e), rest)
  {
    assert ([e] + rest)[1..] == rest;
  }

  lemma ConsConcat(a: seq<Event>, b: seq<Event>)
    requires a != []
    ensures a + b == [a[0]] + (a[1..] + b)
  {
  }

  lemma {:induction false} RunConcat(w: World, a: seq<Event>, b: seq<Event>)
    requires Legal(w, a) && Legal(Run(w, a), b)
    ensures Legal(w, a + b) && Run(w, a + b) == Run(Run(w, a), b)
    decreases |a|
  {
    if a == [] {
      assert a + b == b;
    } else {
      RunConcat(Next(w, a[0]), a[1..], b);
      RunCons(w, a[0], a[1..] + b);
      ConsConcat(a, b);
    }
  }

  /** Some live row comes first whenever there is a live row. */
  lemma {:induction false} SomeLatestLive(subs: seq<Subscription>, user: nat, n: nat) returns (best: nat)
    requires n <= |subs|
    requires exists j: nat :: j < n && LiveRowOf(subs, user, j)
    ensures best < n && LiveRowOf(subs, user, best)
    ensures forall j: nat | j < n && LiveRowOf(subs, user, j) :: NotBefore(subs[best].expiresAt, subs[j].expiresAt)
  {
    var last := n - 1;
    if exists j: nat :: j < last && LiveRowOf(subs, user, j) {
      best := SomeLatestLive(subs, user, last);
      if LiveRowOf(subs, user, last) && !NotBefore(subs[best].expiresAt, subs[last].expiresAt) {
        best := last;
      }
    } else {
      best := last;
    }
  }
}
