/** What every event keeps, and hence what holds in every reachable world, however the payments and the single
    transactions of the two jobs are interleaved. */
module Invariants {
  import opened Options
  import opened Clock
  import opened StateMachine
  import opened Rows
  import opened Ledger

  /** References are in range, telegram ids and payment keys are unique, and a draft is an unpaid placeholder. */
  ghost predicate WellFormed(w: World) {
    UsersDistinct(w.store) && InReach(w) && KeysDistinct(w.store) && DraftsOk(w)
  }

  ghost predicate UsersDistinct(s: Store) {
    forall i, j :: 0 <= i < j < |s.users| ==> s.users[i] != s.users[j]
  }

  ghost predicate InReach(w: World) {
    && (forall i :: 0 <= i < |w.store.subs| ==> w.store.subs[i].user < |w.store.users|)
    && (forall k :: 0 <= k < |w.store.payments| ==> w.store.payments[k].sub < |w.store.subs|)
    && (forall i :: i in w.jobs ==> i < |w.store.subs|)
  }

  ghost predicate KeysDistinct(s: Store) {
    forall j, k :: 0 <= j < k < |s.payments| ==> !SameKey(s.payments[j].charge, s.payments[k].charge)
  }

  ghost predicate DraftsOk(w: World) {
    && (forall i :: i in w.drafts ==> i < |w.store.subs| && w.store.subs[i].status == PENDING)
    && (forall k :: 0 <= k < |w.store.payments| ==> w.store.payments[k].sub !in w.drafts)
  }

  ghost predicate PendingOwnsOne(s: Store) {
    forall j, k :: 0 <= j < k < |s.payments| && s.payments[j].sub == s.payments[k].sub < |s.subs| ==>
      s.subs[s.payments[j].sub].status != PENDING
  }

  ghost predicate ActivatedIsPaid(s: Store) {
    forall i :: 0 <= i < |s.subs| && s.subs[i].status != PENDING ==> OwnedBy(s.payments, i).Some?
  }

  /** A PENDING row owns at most one payment, any other row at least one. */
  ghost predicate PaymentsOk(s: Store) {
    PendingOwnsOne(s) && ActivatedIsPaid(s)
  }

  /** The history only mentions rows that exist, and the row of an activation still is its user's
      and still lasts at least as long as was then granted. */
  ghost predicate ActsOk(w: World) {
    forall k :: 0 <= k < |w.acts| ==>
      && w.acts[k].row < |w.store.subs|
      && (w.acts[k].Granted? ==> GrantHolds(w.store.subs[w.acts[k].row], w.acts[k].user, w.acts[k].until))
  }

  predicate GrantHolds(r: Subscription, user: nat, until: int) {
    r.user == user && r.status != PENDING && r.expiresAt.Some? && r.expiresAt.value >= until
  }

  ghost predicate Inv(w: World) {
    WellFormed(w) && PaymentsOk(w.store) && ActsOk(w)
  }

  /** The empty database satisfies the invariant. */
  lemma InitiallyOk(now: int)
    ensures var w := World(Store([], [], []), now, {}, [], map[]); Inv(w) && RowsSound(w)
  {
  }

  /** The row an event renews, if it renews one. */
  function RenewedRow(w: World, e: Event): Option<nat> {
    match e
    case Activate(_, charge, target) => if Recorded(w.store.payments, charge) then None else Some(target)
    case Confirm(row, target) => if Confirmable(w.store, row) then Some(target) else None
    case _ => None
  }

  /** What an event does to one row: nothing, unless it renews it or is a job's event there. */
  function EventAt(w: World, e: Event, i: nat): RowEvent
    requires i < |w.store.subs|
  {
    if RenewedRow(w, e) == Some(i) then Renew
    else if IsJob(e) && e.row == i then JobEvent(w, e)
    else Stay
  }

  /** Every event acts on each row as one event of the row's own machine. */
  lemma RowStep(w: World, e: Event, i: nat)
    requires Enabled(w, e) && i < |w.store.subs|
    ensures i < |Next(w, e).store.subs|
    ensures CanRow(StateOf(w, i), EventAt(w, e, i), w.now)
    ensures StateOf(Next(w, e), i) == RowAfter(StateOf(w, i), EventAt(w, e, i), w.now)
  {
  }

  /** What an event can and cannot do to a row that exists. */
  lemma RowFrame(w: World, e: Event, i: nat)
    requires Enabled(w, e) && i < |w.store.subs|
    ensures i < |Next(w, e).store.subs|
    ensures var r, r' := w.store.subs[i], Next(w, e).store.subs[i];
            && r'.user == r.user
            && if RenewedRow(w, e) == Some(i) then !Closed(r) && r' == ActivatedRow(r, w.now)
               else
                 && r'.expiresAt == r.expiresAt && (r'.status == PENDING <==> r.status == PENDING)
                 && (IsLive(r'.status) ==> IsLive(r.status))
  {
    RowStep(w, e, i);
  }

  lemma StepKeepsUsers(w: World, e: Event)
    requires UsersDistinct(w.store) && Enabled(w, e)
    ensures UsersDistinct(Next(w, e).store)
  {
  }

  lemma StepKeepsReach(w: World, e: Event)
    requires InReach(w) && DraftsOk(w) && Enabled(w, e)
    ensures InReach(Next(w, e))
  {
    forall i | 0 <= i < |Next(w, e).store.subs|
      ensures Next(w, e).store.subs[i].user < |Next(w, e).store.users|
    {
      if i < |w.store.subs| {
        RowFrame(w, e, i);
      }
    }
  }

  lemma StepKeepsKeys(w: World, e: Event)
    requires KeysDistinct(w.store) && Enabled(w, e)
    ensures KeysDistinct(Next(w, e).store)
  {
  }

  lemma StepKeepsDrafts(w: World, e: Event)
    requires InReach(w) && DraftsOk(w) && Enabled(w, e)
    ensures DraftsOk(Next(w, e))
  {
    forall i | i in Next(w, e).drafts && i in w.drafts ensures Next(w, e).store.subs[i].status == PENDING {
      RowFrame(w, e, i);
    }
  }

  lemma StepKeepsWellFormed(w: World, e: Event)
    requires WellFormed(w) && Enabled(w, e)
    ensures WellFormed(Next(w, e))
  {
    StepKeepsUsers(w, e);
    StepKeepsReach(w, e);
    StepKeepsKeys(w, e);
    StepKeepsDrafts(w, e);
  }

  lemma StepKeepsPendingOwnsOne(w: World, e: Event)
    requires WellFormed(w) && PendingOwnsOne(w.store) && Enabled(w, e)
    ensures PendingOwnsOne(Next(w, e).store)
  {
    var s, s' := w.store, Next(w, e).store;
    forall j, k | 0 <= j < k < |s'.payments| && s'.payments[j].sub == s'.payments[k].sub < |s'.subs|
      ensures s'.subs[s'.payments[j].sub].status != PENDING
    {
      var i := s'.payments[j].sub;
      if i < |s.subs| {
        RowFrame(w, e, i);
      }
    }
  }

  lemma StepKeepsActivatedIsPaid(w: World, e: Event)
    requires WellFormed(w) && ActivatedIsPaid(w.store) && Enabled(w, e)
    ensures ActivatedIsPaid(Next(w, e).store)
  {
    var s, s' := w.store, Next(w, e).store;
    forall i | 0 <= i < |s'.subs| && s'.subs[i].status != PENDING ensures OwnedBy(s'.payments, i).Some? {
      var k := PaymentFor(w, e, i);
      assert s'.payments[k].sub == i;
    }
  }

  /** A payment that a row past PENDING owns after the event. */
  lemma PaymentFor(w: World, e: Event, i: nat) returns (k: nat)
    requires WellFormed(w) && ActivatedIsPaid(w.store) && Enabled(w, e)
    requires i < |Next(w, e).store.subs| && Next(w, e).store.subs[i].status != PENDING
    ensures k < |Next(w, e).store.payments| && Next(w, e).store.payments[k].sub == i
  {
    var s := w.store;
    if i < |s.subs| {
      RowFrame(w, e, i);
    }
    if e.Confirm? && Confirmable(s, e.row) && i == e.target {
      k := OwnedBy(s.payments, e.row).value;
    } else if i < |s.subs| && s.subs[i].status != PENDING {
      k := OwnedBy(s.payments, i).value;
    } else {
      k := |s.payments|;
    }
  }

  lemma StepKeepsPayments(w: World, e: Event)
    requires WellFormed(w) && PaymentsOk(w.store) && Enabled(w, e)
    ensures PaymentsOk(Next(w, e).store)
  {
    StepKeepsPendingOwnsOne(w, e);
    StepKeepsActivatedIsPaid(w, e);
  }

  lemma StepKeepsActs(w: World, e: Event)
    requires WellFormed(w) && ActsOk(w) && Enabled(w, e)
    ensures ActsOk(Next(w, e))
  {
    var w' := Next(w, e);
    forall k | 0 <= k < |w'.acts|
      ensures w'.acts[k].row < |w'.store.subs|
      ensures w'.acts[k].Granted? ==> GrantHolds(w'.store.subs[w'.acts[k].row], w'.acts[k].user, w'.acts[k].until)
    {
      if k < |w.acts| {
        RowFrame(w, e, w.acts[k].row);
      }
    }
  }

  lemma StepKeepsInv(w: World, e: Event)
    requires Inv(w) && Enabled(w, e)
    ensures Inv(Next(w, e))
  {
    StepKeepsWellFormed(w, e);
    StepKeepsPayments(w, e);
    StepKeepsActs(w, e);
  }

  /** The invariant holds in every world that any run reaches. */
  lemma {:induction false} RunKeepsInv(w: World, run: seq<Event>)
    requires Inv(w) && Legal(w, run)
    ensures Inv(Run(w, run))
    decreases |run|
  {
    if run != [] {
      StepKeepsInv(w, run[0]);
      RunKeepsInv(Next(w, run[0]), run[1..]);
    }
  }

  // ----- the rows and the jobs -----

  /** The days-left values delivered for row `i` since its last activation, oldest first. */
  function Cycle(acts: seq<Act>, i: nat): seq<int> {
    if acts == [] then []
    else
      var n := |acts| - 1;
      if acts[n].row != i then Cycle(acts[..n], i)
      else match acts[n]
           case Granted(_, _, _, _, _) => []
           case Reminded(_, days) => Cycle(acts[..n], i) + [days]
  }

  lemma NoActsNoCycle(acts: seq<Act>, i: nat)
    requires forall k :: 0 <= k < |acts| ==> acts[k].row < i
    ensures Cycle(acts, i) == []
  {
  }

  /** Every row, and where the jobs stand with it, is as any interleaving may leave it. */
  ghost predicate RowsSound(w: World) {
    forall i: nat :: i < |w.store.subs| ==> Sound(StateOf(w, i), Cycle(w.acts, i), w.now)
  }

  lemma CycleOneMore(acts: seq<Act>, act: Act, i: nat)
    ensures Cycle(acts + [act], i) ==
            if act.row != i then Cycle(acts, i) else if act.Granted? then [] else Cycle(acts, i) + [act.days]
  {
    assert (acts + [act])[..|acts|] == acts;
  }

  /** An event adds nothing to the history but what it grants or delivers. */
  lemma HistoryStep(w: World, e: Event)
    requires Enabled(w, e)
    ensures var acts, acts' := w.acts, Next(w, e).acts;
            if RenewedRow(w, e).Some? then
              |acts'| == |acts| + 1 && acts' == acts + [acts'[|acts|]] && acts'[|acts|].Granted?
              && acts'[|acts|].row == RenewedRow(w, e).value
            else if e.VisitSend? && e.delivered then
              acts' == acts + [Reminded(e.row, JobsAt(w.jobs, e.row).visit.point.days)]
            else acts' == acts
  {
  }

  lemma CycleStep(w: World, e: Event, i: nat)
    requires Enabled(w, e) && i < |w.store.subs|
    ensures Cycle(Next(w, e).acts, i) == CycleAfter(StateOf(w, i), EventAt(w, e, i), Cycle(w.acts, i))
  {
    HistoryStep(w, e);
    if |Next(w, e).acts| > |w.acts| {
      CycleOneMore(w.acts, Next(w, e).acts[|w.acts|], i);
    }
  }

  lemma NewRowSound(w: World, e: Event, i: nat)
    requires InReach(w) && ActsOk(w) && Enabled(w, e) && |w.store.subs| <= i < |Next(w, e).store.subs|
    ensures Sound(StateOf(Next(w, e), i), Cycle(Next(w, e).acts, i), Next(w, e).now)
  {
    NoActsNoCycle(w.acts, i);
    assert e.Draft? || RenewedRow(w, e) == Some(i);
    if !e.Draft? {
      var acts' := Next(w, e).acts;
      assert acts'[..|acts'| - 1] == w.acts;
      assert Cycle(acts', i) == [];
    }
  }

  lemma StepKeepsRows(w: World, e: Event)
    requires InReach(w) && ActsOk(w) && RowsSound(w) && Enabled(w, e)
    ensures RowsSound(Next(w, e))
  {
    var w' := Next(w, e);
    forall i: nat | i < |w'.store.subs| ensures Sound(StateOf(w', i), Cycle(w'.acts, i), w'.now) {
      if i < |w.store.subs| {
        RowStep(w, e, i);
        CycleStep(w, e, i);
        EventKeepsSound(StateOf(w, i), EventAt(w, e, i), Cycle(w.acts, i), w.now);
        SoundLater(StateOf(w', i), Cycle(w'.acts, i), w.now, w'.now);
      } else {
        NewRowSound(w, e, i);
      }
    }
  }

  /** Over every run, whatever the jobs were doing meanwhile. */
  lemma {:induction false} RunKeepsRows(w: World, run: seq<Event>)
    requires Inv(w) && RowsSound(w) && Legal(w, run)
    ensures RowsSound(Run(w, run))
    decreases |run|
  {
    if run != [] {
      StepKeepsInv(w, run[0]);
      StepKeepsRows(w, run[0]);
      RunKeepsRows(Next(w, run[0]), run[1..]);
    }
  }

  ghost predicate RowsOk(w: World) {
    forall i :: 0 <= i < |w.store.subs| ==> RowOk(w.store.subs[i], w.now)
  }

  /** Over every run from rows that are in order, a row is out of order exactly when a job acted on it that listed it
      before its latest renewal: moved it early, remembered a reminder of the period before, or closed it early. */
  lemma RowsInOrderExactly(w: World, run: seq<Event>, i: nat)
    requires Inv(w) && RowsSound(w) && Legal(w, run) && i < |Run(w, run).store.subs|
    ensures var w' := Run(w, run); var st := StateOf(w', i);
            RowOk(st.row, w'.now) <==> !MovedEarly(st, w'.now) && !NotedLate(st) && !ClosedEarly(st, w'.now)
  {
    RunKeepsRows(w, run);
    var w' := Run(w, run);
    RowOkExactly(StateOf(w', i), Cycle(w'.acts, i), w'.now);
  }

  /** What the jobs' records may be for a row of a table at rest. */
  function RestingJobs(r: Subscription): RowJobs {
    NO_JOBS.(move := if Moved(r) then Timely else NotMoved,
             note := if r.lastWarning.Some? then Leftover else NotNoted)
  }

  /** Any table whose rows are in order is a start of which everything below holds. */
  lemma AnyOrderedTableIsAStart(s: Store, now: int) returns (w: World)
    requires forall i :: 0 <= i < |s.subs| ==> RowOk(s.subs[i], now)
    ensures w.store == s && w.now == now && w.drafts == {} && w.acts == [] && RowsSound(w)
    ensures forall i :: i in w.jobs <==> 0 <= i < |s.subs|
    ensures forall i :: JobsAt(w.jobs, i).kick.point == NotListed && JobsAt(w.jobs, i).visit.point == Resting
  {
    var jobs := map i: nat | i < |s.subs| :: RestingJobs(s.subs[i]);
    w := World(s, now, {}, [], jobs);
    forall i: nat | i < |s.subs| ensures Sound(StateOf(w, i), Cycle(w.acts, i), now) {
      assert RowOk(s.subs[i], now);
      assert JobsAt(jobs, i) == RestingJobs(s.subs[i]);
    }
  }

  // ----- a closed row stays closed -----

  /** No event brings an EXPIRED or KICKED row back to life, moves its expiry or its owner:
      a returning subscriber gets a fresh row. */
  lemma {:induction false} ClosedForever(w: World, run: seq<Event>, i: nat)
    requires Legal(w, run)
    requires i < |w.store.subs| && Closed(w.store.subs[i])
    ensures i < |Run(w, run).store.subs|
    ensures var r, r' := w.store.subs[i], Run(w, run).store.subs[i];
            Closed(r') && r'.expiresAt == r.expiresAt && r'.user == r.user
    decreases |run|
  {
    if run != [] {
      RowFrame(w, run[0], i);
      ClosedForever(Next(w, run[0]), run[1..], i);
    }
  }

  // ----- at most one live row -----

  function LiveRows(subs: seq<Subscription>, user: nat): set<nat> {
    set i: nat | i < |subs| && LiveRowOf(subs, user, i)
  }

  /** An event either adds no live row for a user, or gives a user without one their only one. */
  lemma StepLiveRows(w: World, e: Event, user: nat)
    requires Enabled(w, e)
    ensures var before, after := LiveRows(w.store.subs, user), LiveRows(Next(w, e).store.subs, user);
            after <= before || (before == {} && exists i :: after == {i})
  {
    var before, after := LiveRows(w.store.subs, user), LiveRows(Next(w, e).store.subs, user);
    forall i | i in after && i !in before
      ensures before == {} && after == {i}
    {
      if i < |w.store.subs| {
        RowFrame(w, e, i);
      }
      assert RenewedRow(w, e) == Some(i);
      assert before == {};
      forall j | j in after ensures j == i {
        if j < |w.store.subs| {
          RowFrame(w, e, j);
          assert j !in before;
        }
      }
    }
  }

  /** Over any run the number of a user's live rows never rises above one, or above what it was. */
  lemma {:induction false} LiveRowsNeverMultiply(w: World, run: seq<Event>, user: nat)
    requires Legal(w, run)
    ensures |LiveRows(Run(w, run).store.subs, user)| <= Max(1, |LiveRows(w.store.subs, user)|)
    decreases |run|
  {
    if run != [] {
      var before, after := LiveRows(w.store.subs, user), LiveRows(Next(w, run[0]).store.subs, user);
      StepLiveRows(w, run[0], user);
      if after <= before {
        SubsetIsNoLarger(after, before);
      }
      LiveRowsNeverMultiply(Next(w, run[0]), run[1..], user);
    }
  }

  lemma {:induction false} SubsetIsNoLarger(a: set<nat>, b: set<nat>)
    requires a <= b
    ensures |a| <= |b|
  {
    if x :| x in a {
      SubsetIsNoLarger(a - {x}, b - {x});
    }
  }
}
