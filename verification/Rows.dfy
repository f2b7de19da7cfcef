/** One subscription row, and where the two daily jobs stand with it.
    Each job lists its rows in one query and works on them later, one transaction at a time, mostly without
    looking again at what it listed. */
module Rows {
  import opened Options
  import opened Clock
  import opened StateMachine

  datatype Subscription = Subscription(user: nat, status: Status, expiresAt: Option<int>, lastWarning: Option<int>)

  predicate Closed(r: Subscription) {
    r.status == EXPIRED || r.status == KICKED
  }

  /** A job has moved the row on from ACTIVE. */
  predicate Moved(r: Subscription) {
    r.status != PENDING && r.status != ACTIVE
  }

  predicate Expired(r: Subscription, now: int) {
    IsLive(r.status) && r.expiresAt.Some? && r.expiresAt.value < now
  }

  predicate Due(r: Subscription, now: int) {
    IsLive(r.status) && r.expiresAt.Some? && now <= r.expiresAt.value <= now + WARNING_WINDOW_DAYS * DAY
  }

  function Placeholder(user: nat): Subscription {
    Subscription(user, PENDING, None, None)
  }

  /** Expiry after a renewal: one period on from the current expiry, or from now if that is later. */
  function Renewed(expiresAt: Option<int>, now: int): int {
    (if expiresAt.Some? then Max(now, expiresAt.value) else now) + PERIOD
  }

  function ActivatedRow(r: Subscription, now: int): Subscription {
    r.(status := ACTIVE, expiresAt := Some(Renewed(r.expiresAt, now)), lastWarning := None)
  }

  // ----- where the jobs stand -----

  /** The removal job at one row: before each of its transactions and calls, or how it ended.
      GivenUp: a hop was refused. Served: other access was found. Exempt: no removal was attempted. */
  datatype KickPoint =
    | NotListed
    | AtFirstHop | AtSecondHop | AtThirdHop | AtCheck | AtLookup | AtBan
    | GivenUp | Served | Exempt | Banned

  /** `listed` is the status as listed at `listedAt`; `renewed`, whether the row was renewed since;
      `checkedAt`, how long the history was when the job last looked for other access. */
  datatype Kick = Kick(point: KickPoint, listed: Status, listedAt: int, renewed: bool, checkedAt: nat)

  /** The reminder job at one row: between visits, or before a transaction or the send of a visit. */
  datatype VisitPoint = Resting | AtHop | AtSend(days: int) | AtRecord(days: int)

  /** `listed`, `until` and `warned` are the row's status, expiry and remembered reminder as listed; the flags say
      whether the row was renewed since it was listed, and whether since the reminder was sent. */
  datatype Visit = Visit(point: VisitPoint, listed: Status, until: int, warned: Option<int>,
                         renewed: bool, renewedSinceSend: bool)

  /** Who put the row to EXPIRING since its latest renewal. A job is late when it listed the row before that. */
  datatype Move = NotMoved | Timely | LateReminder | LateRemoval

  /** Where the remembered reminder comes from: a visit that listed the row after its latest renewal, one that listed
      it before but sent after it, or a reminder sent before the renewal, or before the history starts. */
  datatype Note = NotNoted | TimelyNote | LateNote | Leftover

  datatype RowJobs = RowJobs(kick: Kick, visit: Visit, move: Move, note: Note)

  const NO_JOBS: RowJobs :=
    RowJobs(Kick(NotListed, PENDING, 0, false, 0), Visit(Resting, PENDING, 0, None, false, false), NotMoved, NotNoted)

  datatype RowState = RowState(row: Subscription, jobs: RowJobs)

  /** What can happen to one row: a renewal, or one step of a job. */
  datatype RowEvent =
    | Stay
    | Renew
    | TakenDue
    | VisitHops
    | VisitSends(delivered: bool)
    | VisitRecords
    | TakenExpired
    | KickHops
    | KickDecides(access: bool, mark: nat)
    | KickLooksUp
    | KickSpares
    | KickBans

  /** A listing may supersede an earlier one that was left unfinished, unless a reminder is still to be recorded.
      Only live rows are listed: a removal left unfinished past its second hop is never superseded. */
  predicate CanRow(st: RowState, ev: RowEvent, now: int) {
    match ev
    case Stay => true
    case Renew => !Closed(st.row)
    case TakenDue => Due(st.row, now) && !st.jobs.visit.point.AtRecord?
    case VisitHops => st.jobs.visit.point.AtHop?
    case VisitSends(_) => st.jobs.visit.point.AtSend?
    case VisitRecords => st.jobs.visit.point.AtRecord?
    case TakenExpired => Expired(st.row, now)
    case KickHops => st.jobs.kick.point in {AtFirstHop, AtSecondHop, AtThirdHop}
    case KickDecides(_, _) => st.jobs.kick.point == AtCheck
    case KickLooksUp => st.jobs.kick.point == AtLookup
    case KickSpares => st.jobs.kick.point == AtLookup
    case KickBans => st.jobs.kick.point == AtBan
  }

  function WithVisit(st: RowState, point: VisitPoint): RowState {
    st.(jobs := st.jobs.(visit := st.jobs.visit.(point := point)))
  }

  function WithKick(st: RowState, point: KickPoint): RowState {
    st.(jobs := st.jobs.(kick := st.jobs.kick.(point := point)))
  }

  function JobsRenewed(j: RowJobs): RowJobs {
    j.(kick := j.kick.(renewed := true), visit := j.visit.(renewed := true, renewedSinceSend := true),
       move := NotMoved, note := NotNoted)
  }

  /** The visit starts: it goes by the listed expiry, moves a row listed as ACTIVE, whatever has become of it since,
      and looks at the remembered reminder: of the row as it now is, or as it was listed if it was not moved. */
  function VisitHopped(st: RowState, now: int): RowState {
    var visit := st.jobs.visit;
    var days := DaysRemaining(visit.until, now);
    if !(1 <= days <= WARNING_WINDOW_DAYS) then WithVisit(st, Resting)
    else if visit.listed == ACTIVE && !CanTransition(st.row.status, EXPIRING) then WithVisit(st, Resting)
    else
      var moved :=
        if visit.listed == ACTIVE then
          st.(row := st.row.(status := EXPIRING),
              jobs := st.jobs.(move := if visit.renewed then LateReminder else Timely))
        else st;
      var warned := if visit.listed == ACTIVE then st.row.lastWarning else visit.warned;
      WithVisit(moved, if warned.Some? && warned.value <= days then Resting else AtSend(days))
  }

  /** The hop the removal job tries next, and where it stands after that. */
  function HopOf(point: KickPoint): (Status, KickPoint) {
    if point == AtFirstHop then (EXPIRING, AtSecondHop)
    else if point == AtSecondHop then (EXPIRED, AtThirdHop)
    else (KICKED, AtCheck)
  }

  function KickHopped(st: RowState): RowState {
    var kick := st.jobs.kick;
    var (to, next) := HopOf(kick.point);
    if !CanTransition(st.row.status, to) then WithKick(st, GivenUp)
    else
      var moved :=
        if to == EXPIRING then st.(jobs := st.jobs.(move := if kick.renewed then LateRemoval else Timely)) else st;
      WithKick(moved.(row := st.row.(status := to)), next)
  }

  function KickListed(r: Subscription, now: int): Kick {
    Kick(if r.status == ACTIVE then AtFirstHop else AtSecondHop, r.status, now, false, 0)
  }

  function RowAfter(st: RowState, ev: RowEvent, now: int): RowState
    requires CanRow(st, ev, now)
  {
    var j := st.jobs;
    match ev
    case Stay => st
    case Renew => RowState(ActivatedRow(st.row, now), JobsRenewed(j))
    case TakenDue =>
      var taken := Visit(AtHop, st.row.status, st.row.expiresAt.value, st.row.lastWarning, false, false);
      st.(jobs := j.(visit := taken))
    case VisitHops => VisitHopped(st, now)
    case VisitSends(delivered) =>
      if delivered then
        st.(jobs := j.(visit := j.visit.(point := AtRecord(j.visit.point.days), renewedSinceSend := false)))
      else WithVisit(st, Resting)
    case VisitRecords =>
      var note := if j.visit.renewedSinceSend then Leftover else if j.visit.renewed then LateNote else TimelyNote;
      WithVisit(RowState(st.row.(lastWarning := Some(j.visit.point.days)), j.(note := note)), Resting)
    case TakenExpired => st.(jobs := j.(kick := KickListed(st.row, now)))
    case KickHops => KickHopped(st)
    case KickDecides(access, mark) =>
      if access then WithKick(st, Served)
      else st.(jobs := j.(kick := j.kick.(point := AtLookup, checkedAt := mark)))
    case KickLooksUp => WithKick(st, AtBan)
    case KickSpares => WithKick(st, Exempt)
    case KickBans => WithKick(st, Banned)
  }

  /** The days delivered in the current period, after the event: a renewal starts over, a delivery extends them. */
  function CycleAfter(st: RowState, ev: RowEvent, cycle: seq<int>): seq<int> {
    if ev.Renew? then []
    else if ev.VisitSends? && ev.delivered && st.jobs.visit.point.AtSend? then cycle + [st.jobs.visit.point.days]
    else cycle
  }

  // ----- what holds of a row in every interleaving -----

  /** The removal job got past its second hop. */
  predicate WalkedPast(point: KickPoint) {
    point in {AtThirdHop, AtCheck, AtLookup, AtBan, Served, Exempt, Banned}
  }

  predicate Started(point: KickPoint) {
    point in {AtFirstHop, AtSecondHop} || WalkedPast(point)
  }

  predicate StatusSound(st: RowState, now: int) {
    var r, j := st.row, st.jobs;
    && (r.expiresAt.None? <==> r.status == PENDING)
    && (r.status == PENDING ==> j.kick.point == NotListed && j.visit.point.Resting?
                                && j.move == NotMoved && j.note == NotNoted)
    && (IsLive(r.status) ==> (r.status == ACTIVE <==> j.move == NotMoved))
    && (r.status == EXPIRING && j.move == Timely ==> r.expiresAt.value <= now + WARNING_WINDOW_DAYS * DAY)
    && (Closed(r) && !j.kick.renewed ==> r.expiresAt.value < now)
    && (Closed(r) && !WalkedPast(j.kick.point) ==> j.kick.point == NotListed && !j.kick.renewed)
  }

  predicate KickSound(st: RowState, now: int) {
    var r, kick, move := st.row, st.jobs.kick, st.jobs.move;
    && (kick.point == AtFirstHop ==> IsLive(r.status) && kick.listed == ACTIVE)
    && (kick.point == AtSecondHop ==> IsLive(r.status) && (!kick.renewed ==> r.status == EXPIRING))
    && (kick.point == AtThirdHop ==> r.status == EXPIRED)
    && (WalkedPast(kick.point) ==> Closed(r))
    && (WalkedPast(kick.point) && kick.point != AtThirdHop ==> r.status == KICKED)
    && (Started(kick.point) && !kick.renewed ==> r.expiresAt.Some? && r.expiresAt.value < kick.listedAt <= now)
    && (Started(kick.point) && kick.renewed ==>
          r.expiresAt.Some? && r.expiresAt.value >= kick.listedAt + PERIOD)
    && (Started(kick.point) && kick.renewed && move == LateRemoval ==>
          kick.listed == ACTIVE && kick.point != AtFirstHop)
    && (WalkedPast(kick.point) && kick.renewed ==> move != NotMoved)
    && (WalkedPast(kick.point) && kick.renewed && move == Timely ==>
          now >= kick.listedAt + (SUBSCRIPTION_DAYS - WARNING_WINDOW_DAYS) * DAY)
  }

  /** At most three days are left, or none. */
  predicate InWindow(r: Subscription, now: int) {
    r.expiresAt.Some? && r.expiresAt.value <= now + WARNING_WINDOW_DAYS * DAY
  }

  predicate VisitSound(st: RowState, cycle: seq<int>, now: int) {
    var r, visit := st.row, st.jobs.visit;
    var moved := Moved(r);
    match visit.point
    case Resting => true
    case AtHop =>
      && IsLive(visit.listed)
      && (if visit.renewed then cycle == []
          else
            && r.lastWarning == visit.warned && r.expiresAt == Some(visit.until)
            && (visit.listed == EXPIRING ==> moved))
    case AtSend(days) =>
      && 1 <= days <= WARNING_WINDOW_DAYS && (cycle != [] ==> cycle[|cycle| - 1] > days)
      && (if visit.renewed then cycle == [] else moved && InWindow(r, now))
    case AtRecord(days) =>
      && 1 <= days <= WARNING_WINDOW_DAYS && (!visit.renewed ==> moved && InWindow(r, now))
      && (if visit.renewedSinceSend then visit.renewed && cycle == []
          else cycle != [] && cycle[|cycle| - 1] == days)
  }

  /** Strictly decreasing within the reminder window. */
  ghost predicate CountsDown(cycle: seq<int>) {
    && (forall a :: 0 <= a < |cycle| ==> 1 <= cycle[a] <= WARNING_WINDOW_DAYS)
    && (forall a, b :: 0 <= a < b < |cycle| ==> cycle[a] > cycle[b])
  }

  /** A delivered reminder is still to be recorded, and the row has not been renewed since it was sent. */
  predicate InFlight(visit: Visit) {
    visit.point.AtRecord? && !visit.renewedSinceSend
  }

  predicate NoteSound(st: RowState, cycle: seq<int>, now: int) {
    var r, j := st.row, st.jobs;
    && (r.lastWarning.Some? <==> j.note != NotNoted)
    && (r.lastWarning.Some? ==> 1 <= r.lastWarning.value <= WARNING_WINDOW_DAYS)
    && (j.note == TimelyNote ==> Moved(r) && InWindow(r, now))
    && (!InFlight(j.visit) ==>
          if cycle == [] then r.lastWarning.None? || j.note == Leftover
          else r.lastWarning == Some(cycle[|cycle| - 1]) && j.note != Leftover)
  }

  ghost predicate Sound(st: RowState, cycle: seq<int>, now: int) {
    && StatusSound(st, now) && KickSound(st, now) && VisitSound(st, cycle, now)
    && CountsDown(cycle) && NoteSound(st, cycle, now)
  }

  lemma SoundLater(st: RowState, cycle: seq<int>, now: int, later: int)
    requires Sound(st, cycle, now) && now <= later
    ensures Sound(st, cycle, later)
  {
  }

  lemma RenewKeepsSound(st: RowState, cycle: seq<int>, now: int)
    requires Sound(st, cycle, now) && CanRow(st, Renew, now)
    ensures Sound(RowAfter(st, Renew, now), [], now)
  {
  }

  /** A row listed as EXPIRING is not moved. */
  lemma UnmovedKeepsSound(st: RowState, cycle: seq<int>, now: int)
    requires Sound(st, cycle, now) && st.jobs.visit.point.AtHop? && st.jobs.visit.listed != ACTIVE
    ensures Sound(VisitHopped(st, now), cycle, now)
  {
    DaysRemainingMeaning(st.jobs.visit.until, now, WARNING_WINDOW_DAYS);
  }

  /** A row listed as ACTIVE is moved, if that is allowed. */
  lemma MoveKeepsSound(st: RowState, cycle: seq<int>, now: int)
    requires Sound(st, cycle, now) && st.jobs.visit.point.AtHop? && st.jobs.visit.listed == ACTIVE
    ensures Sound(VisitHopped(st, now), cycle, now)
  {
    DaysRemainingMeaning(st.jobs.visit.until, now, WARNING_WINDOW_DAYS);
  }

  lemma VisitHopKeepsSound(st: RowState, cycle: seq<int>, now: int)
    requires Sound(st, cycle, now) && CanRow(st, VisitHops, now)
    ensures Sound(RowAfter(st, VisitHops, now), cycle, now)
  {
    if st.jobs.visit.listed == ACTIVE {
      MoveKeepsSound(st, cycle, now);
    } else {
      UnmovedKeepsSound(st, cycle, now);
    }
  }

  lemma CountsDownOneMore(cycle: seq<int>, days: int)
    requires CountsDown(cycle) && 1 <= days <= WARNING_WINDOW_DAYS && (cycle != [] ==> cycle[|cycle| - 1] > days)
    ensures CountsDown(cycle + [days])
  {
  }

  lemma VisitKeepsSound(st: RowState, ev: RowEvent, cycle: seq<int>, now: int)
    requires Sound(st, cycle, now) && CanRow(st, ev, now)
    requires ev.TakenDue? || ev.VisitSends? || ev.VisitRecords?
    ensures Sound(RowAfter(st, ev, now), CycleAfter(st, ev, cycle), now)
  {
    if ev.VisitSends? && ev.delivered {
      CountsDownOneMore(cycle, st.jobs.visit.point.days);
    }
  }

  lemma FirstHopKeepsSound(st: RowState, cycle: seq<int>, now: int)
    requires Sound(st, cycle, now) && st.jobs.kick.point == AtFirstHop
    ensures Sound(KickHopped(st), cycle, now)
  {
  }

  lemma LaterHopKeepsSound(st: RowState, cycle: seq<int>, now: int)
    requires Sound(st, cycle, now) && st.jobs.kick.point in {AtSecondHop, AtThirdHop}
    ensures Sound(KickHopped(st), cycle, now)
  {
  }

  lemma KickHopKeepsSound(st: RowState, cycle: seq<int>, now: int)
    requires Sound(st, cycle, now) && CanRow(st, KickHops, now)
    ensures Sound(RowAfter(st, KickHops, now), cycle, now)
  {
    if st.jobs.kick.point == AtFirstHop {
      FirstHopKeepsSound(st, cycle, now);
    } else {
      LaterHopKeepsSound(st, cycle, now);
    }
  }

  lemma KickKeepsSound(st: RowState, ev: RowEvent, cycle: seq<int>, now: int)
    requires Sound(st, cycle, now) && CanRow(st, ev, now)
    requires ev.TakenExpired? || ev.KickDecides? || ev.KickLooksUp? || ev.KickSpares? || ev.KickBans?
    ensures Sound(RowAfter(st, ev, now), cycle, now)
  {
  }

  /** Whatever happens to a row next, in whatever order the jobs and the renewals come. */
  lemma EventKeepsSound(st: RowState, ev: RowEvent, cycle: seq<int>, now: int)
    requires Sound(st, cycle, now) && CanRow(st, ev, now)
    ensures Sound(RowAfter(st, ev, now), CycleAfter(st, ev, cycle), now)
  {
    match ev
    case Stay =>
    case Renew => RenewKeepsSound(st, cycle, now);
    case VisitHops => VisitHopKeepsSound(st, cycle, now);
    case KickHops => KickHopKeepsSound(st, cycle, now);
    case TakenDue => VisitKeepsSound(st, ev, cycle, now);
    case VisitSends(_) => VisitKeepsSound(st, ev, cycle, now);
    case VisitRecords => VisitKeepsSound(st, ev, cycle, now);
    case TakenExpired => KickKeepsSound(st, ev, cycle, now);
    case KickDecides(_, _) => KickKeepsSound(st, ev, cycle, now);
    case KickLooksUp => KickKeepsSound(st, ev, cycle, now);
    case KickSpares => KickKeepsSound(st, ev, cycle, now);
    case KickBans => KickKeepsSound(st, ev, cycle, now);
  }

  // ----- exactly when a row and its reminders are in order -----

  /** What is meant to be true of one row at an instant. */
  predicate RowOk(r: Subscription, now: int) {
    && (r.expiresAt.None? <==> r.status == PENDING)
    && (Closed(r) ==> r.expiresAt.value < now)
    && (r.status == EXPIRING ==> r.expiresAt.value <= now + WARNING_WINDOW_DAYS * DAY)
    && (r.lastWarning.Some? ==> 1 <= r.lastWarning.value <= WARNING_WINDOW_DAYS && Moved(r))
  }

  /** A job that listed the row before its latest renewal put it to EXPIRING after it, more than three days too soon. */
  predicate MovedEarly(st: RowState, now: int) {
    && st.row.status == EXPIRING && st.jobs.move in {LateReminder, LateRemoval}
    && st.row.expiresAt.Some? && st.row.expiresAt.value > now + WARNING_WINDOW_DAYS * DAY
  }

  /** A visit that listed the row before its latest renewal recorded its reminder after it. */
  predicate NotedLate(st: RowState) {
    st.row.status == ACTIVE && st.jobs.note in {LateNote, Leftover}
  }

  /** The removal job closed the row although it was renewed after it was listed. */
  predicate WalkedThoughRenewed(st: RowState) {
    Closed(st.row) && st.jobs.kick.renewed
  }

  /** The expiry of a row so closed still lies ahead, or is this very instant. */
  predicate ClosedEarly(st: RowState, now: int) {
    WalkedThoughRenewed(st) && st.row.expiresAt.Some? && st.row.expiresAt.value >= now
  }

  /** In every interleaving, a row is out of order exactly when a job acted on it that listed it before its
      latest renewal: moved it early, remembered a reminder of the period before, or closed it early. */
  lemma RowOkExactly(st: RowState, cycle: seq<int>, now: int)
    requires Sound(st, cycle, now)
    ensures RowOk(st.row, now) <==> !MovedEarly(st, now) && !NotedLate(st) && !ClosedEarly(st, now)
  {
  }

  /** Within the reminder window and decreasing, and the row remembers the last. */
  ghost predicate CycleOk(cycle: seq<int>, lastWarning: Option<int>) {
    CountsDown(cycle) && lastWarning == if cycle == [] then None else Some(cycle[|cycle| - 1])
  }

  /** In every interleaving the delivered reminders count down, and once recorded the row remembers the last of them,
      unless all it remembers is a reminder from before the period. */
  lemma CycleOkExactly(st: RowState, cycle: seq<int>, now: int)
    requires Sound(st, cycle, now) && !InFlight(st.jobs.visit)
    ensures CycleOk(cycle, st.row.lastWarning) <==> !(cycle == [] && st.jobs.note == Leftover)
  {
  }

  // ----- how a renewed row comes to be closed -----

  /** A row that was renewed after the removal job listed it has been put back to EXPIRING since: by the removal job's
      own first hop, for a row listed as ACTIVE; by a visit that listed the row before the renewal; or by a visit in due
      course, 27 days or more after the removal job's listing. */
  predicate PutBack(st: RowState, now: int) {
    var kick, move := st.jobs.kick, st.jobs.move;
    kick.renewed
    && (|| (move == LateRemoval && kick.listed == ACTIVE)
        || move == LateReminder
        || (move == Timely && now >= kick.listedAt + (SUBSCRIPTION_DAYS - WARNING_WINDOW_DAYS) * DAY))
  }

  /** The second hop is refused exactly when the row was renewed and has not been put back; and whatever row
      the removal job closes although it was renewed has been put back. */
  lemma PutBackExactly(st: RowState, cycle: seq<int>, now: int)
    requires Sound(st, cycle, now)
    ensures st.jobs.kick.point == AtSecondHop ==>
              (KickHopped(st).jobs.kick.point == GivenUp <==> st.jobs.kick.renewed && !PutBack(st, now))
    ensures WalkedThoughRenewed(st) <==> Closed(st.row) && PutBack(st, now)
  {
  }
}
