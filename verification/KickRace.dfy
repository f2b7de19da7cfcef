/** The removal job with every hop, check and call its own step, and everything else interleaved: payments, renewals,
    confirmations, and the reminder job. The job never looks at an expiry again after listing its candidates. */
module KickRace {
  import opened Options
  import opened StateMachine
  import opened Rows
  import opened Ledger
  import opened Invariants
  import opened PaidTime
  import KickBatch

  function KickAt(w: World, i: nat): Kick {
    JobsAt(w.jobs, i).kick
  }

  /** Where the job stands with row `i` after its next step there. */
  function PointAfter(w: World, i: nat): KickPoint
    requires Enabled(w, KickStep(i))
  {
    KickAt(Next(w, KickStep(i)), i).point
  }

  // ----- between the check and the ban -----

  /** Since the history had length `mark`, the user was granted access that lasts until `until` or beyond. */
  ghost predicate GrantedSince(acts: seq<Act>, user: nat, mark: nat, until: int) {
    exists g :: mark <= g < |acts| && acts[g].Granted? && acts[g].user == user && acts[g].until >= until
  }

  /** What the check found, or has been paid for since: each live row of the user is over, or lasts no longer than
      what was granted since. */
  ghost predicate CheckHolds(w: World, user: nat, mark: nat) {
    forall j: nat | j < |w.store.subs| && LiveRowOf(w.store.subs, user, j) ::
      w.store.subs[j].expiresAt.Some?
      && (w.store.subs[j].expiresAt.value <= w.now || GrantedSince(w.acts, user, mark, w.store.subs[j].expiresAt.value))
  }

  /** Wherever the job is between its check of a row and the ban, the check holds. */
  ghost predicate ChecksOk(w: World) {
    forall i: nat | i < |w.store.subs| && KickAt(w, i).point in {AtLookup, AtBan} ::
      KickAt(w, i).checkedAt <= |w.acts| && CheckHolds(w, w.store.subs[i].user, KickAt(w, i).checkedAt)
  }

  lemma GrantsRemain(acts: seq<Act>, more: seq<Act>, user: nat, mark: nat, until: int)
    requires GrantedSince(acts, user, mark, until)
    ensures GrantedSince(acts + more, user, mark, until)
  {
    var g :| mark <= g < |acts| && acts[g].Granted? && acts[g].user == user && acts[g].until >= until;
    assert (acts + more)[g] == acts[g];
  }

  /** An event only extends the history, and a renewal by what it grants. */
  lemma HistoryGrows(w: World, e: Event) returns (more: seq<Act>)
    requires WellFormed(w) && Enabled(w, e)
    ensures Next(w, e).acts == w.acts + more
    ensures RenewedRow(w, e).Some? ==>
              var row := RenewedRow(w, e).value; var r := Next(w, e).store.subs[row];
              |more| == 1 && more[0].Granted? && more[0].user == r.user && Some(more[0].until) == r.expiresAt
  {
    var acts' := Next(w, e).acts;
    if acts' == w.acts {
      more := [];
    } else {
      more := [acts'[|w.acts|]];
    }
  }

  lemma CheckStillHolds(w: World, e: Event, user: nat, mark: nat)
    requires WellFormed(w) && RowsSound(w) && Enabled(w, e) && mark <= |w.acts| && CheckHolds(w, user, mark)
    ensures CheckHolds(Next(w, e), user, mark)
  {
    var w', subs := Next(w, e), w.store.subs;
    var more := HistoryGrows(w, e);
    forall j: nat | j < |w'.store.subs| && LiveRowOf(w'.store.subs, user, j)
      ensures w'.store.subs[j].expiresAt.Some?
      ensures w'.store.subs[j].expiresAt.value <= w'.now
           || GrantedSince(w'.acts, user, mark, w'.store.subs[j].expiresAt.value)
    {
      if RenewedRow(w, e) == Some(j) {
        assert w'.acts[|w.acts|] == more[0];
      } else {
        assert j < |subs|;
        RowFrame(w, e, j);
        assert LiveRowOf(subs, user, j);
        if GrantedSince(w.acts, user, mark, subs[j].expiresAt.value) {
          GrantsRemain(w.acts, more, user, mark, subs[j].expiresAt.value);
        }
      }
    }
  }

  /** Going on at the check, the job has found no live row beyond now. */
  lemma CheckFinds(w: World, i: nat)
    requires Inv(w) && RowsSound(w) && Enabled(w, KickStep(i)) && KickAt(w, i).point == AtCheck
    ensures PointAfter(w, i) ==
            if LiveBeyond(w.store.subs, w.store.subs[i].user, w.now) then Served else AtLookup
    ensures PointAfter(w, i) == AtLookup ==>
              KickAt(Next(w, KickStep(i)), i).checkedAt == |w.acts|
              && CheckHolds(w, w.store.subs[i].user, |w.acts|)
  {
    AccessSeenExactly(w, w.store.subs[i].user);
    SoundExpiries(w);
  }

  /** Only the check itself brings the job past the check, and only it sets the mark. */
  lemma MarkStays(st: RowState, ev: RowEvent, now: int)
    requires CanRow(st, ev, now)
    ensures var kick, kick' := st.jobs.kick, RowAfter(st, ev, now).jobs.kick;
            kick'.point in {AtLookup, AtBan} ==>
              (ev.KickDecides? && kick.point == AtCheck)
              || (kick.point in {AtLookup, AtBan} && kick'.checkedAt == kick.checkedAt)
  {
  }

  lemma PastCheckBefore(w: World, e: Event, i: nat)
    requires Inv(w) && Enabled(w, e) && i < |Next(w, e).store.subs|
    requires KickAt(Next(w, e), i).point in {AtLookup, AtBan}
    ensures i < |w.store.subs| && Next(w, e).store.subs[i].user == w.store.subs[i].user
    ensures (e == KickStep(i) && KickAt(w, i).point == AtCheck)
         || (KickAt(w, i).point in {AtLookup, AtBan} && KickAt(Next(w, e), i).checkedAt == KickAt(w, i).checkedAt)
  {
    if i < |w.store.subs| {
      RowStep(w, e, i);
      RowFrame(w, e, i);
      MarkStays(StateOf(w, i), EventAt(w, e, i), w.now);
    }
  }

  lemma StepKeepsChecks(w: World, e: Event)
    requires Inv(w) && RowsSound(w) && ChecksOk(w) && Enabled(w, e)
    ensures ChecksOk(Next(w, e))
  {
    var w' := Next(w, e);
    forall i: nat | i < |w'.store.subs| && KickAt(w', i).point in {AtLookup, AtBan}
      ensures KickAt(w', i).checkedAt <= |w'.acts|
      ensures CheckHolds(w', w'.store.subs[i].user, KickAt(w', i).checkedAt)
    {
      CheckedRow(w, e, i);
    }
  }

  lemma CheckedRow(w: World, e: Event, i: nat)
    requires Inv(w) && RowsSound(w) && ChecksOk(w) && Enabled(w, e)
    requires i < |Next(w, e).store.subs| && KickAt(Next(w, e), i).point in {AtLookup, AtBan}
    ensures var w' := Next(w, e);
            && KickAt(w', i).checkedAt <= |w'.acts|
            && CheckHolds(w', w'.store.subs[i].user, KickAt(w', i).checkedAt)
  {
    var more := HistoryGrows(w, e);
    PastCheckBefore(w, e, i);
    if e == KickStep(i) && KickAt(w, i).point == AtCheck {
      CheckFinds(w, i);
    }
    CheckStillHolds(w, e, w.store.subs[i].user, KickAt(Next(w, e), i).checkedAt);
  }

  /** The user was granted access beyond now since the history had length `mark`. */
  ghost predicate PaidSince(w: World, user: nat, mark: nat) {
    GrantedSince(w.acts, user, mark, w.now + 1)
  }

  lemma LiveMeansPaidSince(w: World, user: nat, mark: nat)
    requires CheckHolds(w, user, mark) && LiveBeyond(w.store.subs, user, w.now)
    ensures PaidSince(w, user, mark)
  {
    var subs := w.store.subs;
    var j: nat :| j < |subs| && LiveRowOf(subs, user, j) && subs[j].expiresAt.Some? && subs[j].expiresAt.value > w.now;
    assert GrantedSince(w.acts, user, mark, subs[j].expiresAt.value);
  }

  lemma PaidSinceMeansPaidUp(w: World, user: nat, mark: nat)
    requires ActsOk(w) && PaidSince(w, user, mark)
    ensures PaidUp(w, user)
  {
    var g :| mark <= g < |w.acts| && w.acts[g].Granted? && w.acts[g].user == user && w.acts[g].until >= w.now + 1;
    assert GrantHolds(w.store.subs[w.acts[g].row], user, w.acts[g].until);
  }

  /** Between the check and the ban, the user is paid up exactly when a row of theirs lies ahead although it is closed,
      or they have paid since the check. */
  lemma PaidUpAtBanExactly(w: World, i: nat)
    requires Inv(w) && RowsSound(w) && ChecksOk(w)
    requires i < |w.store.subs| && KickAt(w, i).point in {AtLookup, AtBan}
    ensures var user := w.store.subs[i].user;
            PaidUp(w, user) <==> WalkedAhead(w, user) || PaidSince(w, user, KickAt(w, i).checkedAt)
  {
    var user, mark := w.store.subs[i].user, KickAt(w, i).checkedAt;
    PaidUpExactly(w, user);
    if LiveBeyond(w.store.subs, user, w.now) {
      LiveMeansPaidSince(w, user, mark);
    }
    if PaidSince(w, user, mark) {
      PaidSinceMeansPaidUp(w, user, mark);
    }
  }

  // ----- the outcome, for every interleaving -----

  /** A row of the user was closed although it had been renewed and put back, and still lies ahead. */
  ghost predicate PutBackAhead(w: World, user: nat) {
    exists i: nat | i < |w.store.subs| ::
      && w.store.subs[i].user == user && Closed(w.store.subs[i]) && PutBack(StateOf(w, i), w.now)
      && w.store.subs[i].expiresAt.Some? && w.store.subs[i].expiresAt.value > w.now
  }

  lemma WalkedAheadMeansPutBack(w: World, user: nat)
    requires RowsSound(w)
    ensures WalkedAhead(w, user) <==> PutBackAhead(w, user)
  {
    forall i: nat | i < |w.store.subs|
      ensures WalkedThoughRenewed(StateOf(w, i)) <==> Closed(w.store.subs[i]) && PutBack(StateOf(w, i), w.now)
    {
      PutBackExactly(StateOf(w, i), Cycle(w.acts, i), w.now);
    }
  }

  /** What the job's next step at row `i` does, and what that says about the row's owner:
      - the first hop is refused exactly when a reminder visit has moved the row on first;
      - the second exactly when the row was renewed and has not been put back to EXPIRING since; the third never;
      - the check finds other access exactly when the owner has a live row beyond now;
      - whoever is about to be banned is paid up exactly when a row of theirs was closed after it was renewed and put
        back, and still lies ahead, or when they paid between the check and the ban. */
  ghost predicate Outcome(w: World, i: nat)
    requires i < |w.store.subs|
  {
    var kick, move, user := KickAt(w, i), JobsAt(w.jobs, i).move, w.store.subs[i].user;
    match kick.point
    case AtFirstHop => PointAfter(w, i) == if move == NotMoved then AtSecondHop else GivenUp
    case AtSecondHop =>
      PointAfter(w, i) == if kick.renewed && !PutBack(StateOf(w, i), w.now) then GivenUp else AtThirdHop
    case AtThirdHop => PointAfter(w, i) == AtCheck
    case AtCheck => PointAfter(w, i) == if LiveBeyond(w.store.subs, user, w.now) then Served else AtLookup
    case AtBan =>
      && PointAfter(w, i) == Banned
      && (PaidUp(w, user) <==> PutBackAhead(w, user) || PaidSince(w, user, kick.checkedAt))
    case _ => true
  }

  lemma OutcomeOfCandidate(w: World, i: nat)
    requires Inv(w) && RowsSound(w) && ChecksOk(w) && i < |w.store.subs|
    ensures Outcome(w, i)
  {
    assert Sound(StateOf(w, i), Cycle(w.acts, i), w.now);
    PutBackExactly(StateOf(w, i), Cycle(w.acts, i), w.now);
    if KickAt(w, i).point == AtCheck {
      CheckFinds(w, i);
    }
    if KickAt(w, i).point == AtBan {
      PaidUpAtBanExactly(w, i);
      WalkedAheadMeansPutBack(w, w.store.subs[i].user);
    }
  }

  lemma {:induction false} RunKeepsChecks(w: World, run: seq<Event>)
    requires Inv(w) && RowsSound(w) && ChecksOk(w) && Legal(w, run)
    ensures ChecksOk(Run(w, run))
    decreases |run|
  {
    if run != [] {
      StepKeepsInv(w, run[0]);
      StepKeepsRows(w, run[0]);
      StepKeepsChecks(w, run[0]);
      RunKeepsChecks(Next(w, run[0]), run[1..]);
    }
  }

  /** In every interleaving of any runs of the two jobs with payments, renewals and confirmations, at any times,
      every next step of the removal job has the outcome above. */
  lemma KickAgainstRenewals(w: World, run: seq<Event>, i: nat)
    requires Inv(w) && RowsSound(w) && ChecksOk(w) && Legal(w, run) && i < |Run(w, run).store.subs|
    ensures Outcome(Run(w, run), i)
  {
    RunKeepsInv(w, run);
    RunKeepsRows(w, run);
    RunKeepsChecks(w, run);
    OutcomeOfCandidate(Run(w, run), i);
  }

  // ----- without interleaving -----

  /** `after` is `before` with row `i` set to `r` and the removal job at `point` there. */
  ghost predicate OnlyKick(before: World, after: World, i: nat, r: Subscription, point: KickPoint)
    requires i < |before.store.subs|
  {
    && after.now == before.now && after.drafts == before.drafts && after.acts == before.acts
    && after.store == before.store.(subs := before.store.subs[i := r])
    && KickAt(after, i).point == point
    && forall j :: j != i ==> JobsAt(after.jobs, j) == JobsAt(before.jobs, j)
  }

  lemma OnlyKickTwice(a: World, b: World, c: World, i: nat, r: Subscription, r': Subscription,
                      point: KickPoint, point': KickPoint)
    requires i < |a.store.subs| && OnlyKick(a, b, i, r, point) && OnlyKick(b, c, i, r', point')
    ensures OnlyKick(a, c, i, r', point')
  {
  }

  lemma OneStep(w: World, e: Event)
    requires Enabled(w, e)
    ensures Legal(w, [e]) && Run(w, [e]) == Next(w, e)
  {
    RunCons(w, e, []);
    assert [e] + [] == [e];
  }

  lemma HopAlone(w: World, i: nat)
    requires i < |w.store.subs| && KickAt(w, i).point in {AtFirstHop, AtSecondHop, AtThirdHop}
    requires CanTransition(w.store.subs[i].status, HopOf(KickAt(w, i).point).0)
    ensures var (to, next) := HopOf(KickAt(w, i).point);
            && Enabled(w, KickStep(i))
            && OnlyKick(w, Next(w, KickStep(i)), i, w.store.subs[i].(status := to), next)
  {
  }

  /** The hops that close a row. */
  lemma {:induction false} CloseAlone(w: World, i: nat) returns (run: seq<Event>)
    requires i < |w.store.subs|
    requires match KickAt(w, i).point
             case AtFirstHop => w.store.subs[i].status == ACTIVE
             case AtSecondHop => w.store.subs[i].status == EXPIRING
             case AtThirdHop => w.store.subs[i].status == EXPIRED
             case _ => false
    ensures Legal(w, run) && OnlyKick(w, Run(w, run), i, w.store.subs[i].(status := KICKED), AtCheck)
    decreases match KickAt(w, i).point case AtFirstHop => 2 case AtSecondHop => 1 case _ => 0
  {
    var r := w.store.subs[i];
    var (to, next) := HopOf(KickAt(w, i).point);
    HopAlone(w, i);
    OneStep(w, KickStep(i));
    run := [KickStep(i)];
    if next != AtCheck {
      var hopped := Next(w, KickStep(i));
      var more := CloseAlone(hopped, i);
      OnlyKickTwice(w, hopped, Run(hopped, more), i, r.(status := to), r.(status := KICKED), next, AtCheck);
      RunConcat(w, run, more);
      run := run + more;
    }
  }

  /** How the batch ends with candidate `i`. */
  ghost function BatchPoint(s: Store, settings: KickBatch.Settings, telegram: KickBatch.Telegram, now: int,
                            i: nat): KickPoint
    requires i < |s.subs|
  {
    if s.subs[i].user >= |s.users| || AccessSeen(s.subs, s.subs[i].user, now) then Served
    else if KickBatch.Removes(s, settings, telegram, now, i) then Banned
    else Exempt
  }

  /** The ways to end are told apart by the batch's calls. */
  lemma BatchPointsByCalls(s: Store, settings: KickBatch.Settings, telegram: KickBatch.Telegram, now: int, i: nat)
    requires i < |s.subs|
    ensures var point, calls := BatchPoint(s, settings, telegram, now, i),
                                KickBatch.CallsFor(s, settings, telegram, now, i);
            && (point == Banned <==> exists k :: 0 <= k < |calls| && calls[k].Ban?)
            && (point == Served ==> calls == [])
            && (calls == [] && (settings.channel || !settings.dryRun) ==> point == Served)
  {
    var calls := KickBatch.CallsFor(s, settings, telegram, now, i);
    if KickBatch.Removes(s, settings, telegram, now, i) {
      assert calls[1].Ban?;
    }
  }

  /** A step at a closed row only moves the job on. */
  lemma StepAlone(w: World, e: Event, i: nat)
    requires e in {KickStep(i), KickExempt(i)} && i < |w.store.subs| && Enabled(w, e)
    requires KickAt(w, i).point in {AtCheck, AtLookup, AtBan}
    ensures OnlyKick(w, Next(w, e), i, w.store.subs[i], KickAt(Next(w, e), i).point)
    ensures Legal(w, [e]) && Run(w, [e]) == Next(w, e)
  {
    var w' := Next(w, e);
    assert w'.store.subs == w.store.subs && w'.acts == w.acts + [];
    OneStep(w, e);
  }

  /** The job looks the member up, and bans them. */
  lemma BanAlone(w: World, i: nat) returns (run: seq<Event>)
    requires i < |w.store.subs| && KickAt(w, i).point == AtLookup
    ensures Legal(w, run) && OnlyKick(w, Run(w, run), i, w.store.subs[i], Banned)
  {
    StepAlone(w, KickStep(i), i);
    var found := Next(w, KickStep(i));
    StepAlone(found, KickStep(i), i);
    OnlyKickTwice(w, found, Next(found, KickStep(i)), i, w.store.subs[i], w.store.subs[i], AtBan, Banned);
    RunConcat(w, [KickStep(i)], [KickStep(i)]);
    run := [KickStep(i)] + [KickStep(i)];
  }

  /** The decision about a closed row. */
  lemma DecideAlone(w: World, i: nat, settings: KickBatch.Settings, telegram: KickBatch.Telegram)
      returns (run: seq<Event>)
    requires i < |w.store.subs| && KickAt(w, i).point == AtCheck
    ensures Legal(w, run)
    ensures OnlyKick(w, Run(w, run), i, w.store.subs[i], BatchPoint(w.store, settings, telegram, w.now, i))
  {
    var r, point := w.store.subs[i], BatchPoint(w.store, settings, telegram, w.now, i);
    StepAlone(w, KickStep(i), i);
    run := [KickStep(i)];
    if point != Served {
      var checked := Next(w, KickStep(i));
      var more := [KickExempt(i)];
      if point == Exempt {
        StepAlone(checked, KickExempt(i), i);
      } else {
        more := BanAlone(checked, i);
      }
      OnlyKickTwice(w, checked, Run(checked, more), i, r, r, AtLookup, point);
      RunConcat(w, run, more);
      run := run + more;
    }
  }

  /** One listed candidate from its first hop to the end, with nothing in between. */
  lemma KickAlone(w: World, i: nat, settings: KickBatch.Settings, telegram: KickBatch.Telegram)
      returns (run: seq<Event>)
    requires i < |w.store.subs| && IsLive(w.store.subs[i].status)
    requires KickAt(w, i).point == KickListed(w.store.subs[i], w.now).point
    ensures Legal(w, run)
    ensures var closed := w.store.(subs := w.store.subs[i := w.store.subs[i].(status := KICKED)]);
            OnlyKick(w, Run(w, run), i, w.store.subs[i].(status := KICKED),
                     BatchPoint(closed, settings, telegram, w.now, i))
  {
    var r := w.store.subs[i].(status := KICKED);
    run := CloseAlone(w, i);
    var closed := Run(w, run);
    var more := DecideAlone(closed, i, settings, telegram);
    OnlyKickTwice(w, closed, Run(closed, more), i, r, r, AtCheck,
                  BatchPoint(closed.store, settings, telegram, w.now, i));
    RunConcat(w, run, more);
    run := run + more;
  }

  /** Every candidate is listed as it stands, and nothing else has happened. */
  ghost predicate AllListed(before: World, after: World, candidates: seq<nat>) {
    && after.store == before.store && after.now == before.now
    && after.drafts == before.drafts && after.acts == before.acts
    && (forall i :: i in candidates ==>
          i < |before.store.subs| && KickAt(after, i) == KickListed(before.store.subs[i], before.now))
    && (forall j :: j !in candidates ==> JobsAt(after.jobs, j) == JobsAt(before.jobs, j))
  }

  /** The query that lists the candidates. */
  lemma {:induction false} ListAll(w: World, candidates: seq<nat>) returns (run: seq<Event>)
    requires forall i :: i in candidates ==> i < |w.store.subs| && Expired(w.store.subs[i], w.now)
    ensures Legal(w, run) && AllListed(w, Run(w, run), candidates)
    decreases |candidates|
  {
    run := [];
    if candidates != [] {
      var i := candidates[0];
      var listed := Next(w, TakeExpired(i));
      assert listed.store.subs == w.store.subs && listed.acts == w.acts + [];
      assert forall j :: j in candidates <==> j == i || j in candidates[1..];
      var more := ListAll(listed, candidates[1..]);
      OneStep(w, TakeExpired(i));
      RunConcat(w, [TakeExpired(i)], more);
      run := [TakeExpired(i)] + more;
    }
  }

  /** The candidates, listed from the store `s0`, still stand as they were listed. */
  ghost predicate AsListed(s0: Store, w: World, candidates: seq<nat>) {
    && KickBatch.PartlyKicked(s0, w.store, w.now)
    && InRange(candidates, |s0.subs|)
    && (forall a, b :: 0 <= a < b < |candidates| ==> candidates[a] != candidates[b])
    && forall i :: i in candidates ==>
         && i < |s0.subs| && w.store.subs[i] == s0.subs[i] && Expired(s0.subs[i], w.now)
         && KickAt(w, i) == KickListed(s0.subs[i], w.now)
  }

  /** What the job does to its candidates one after the other is what the batch does. */
  lemma {:induction false} KickEachAlone(s0: Store, w: World, settings: KickBatch.Settings,
                                         telegram: KickBatch.Telegram, candidates: seq<nat>)
      returns (run: seq<Event>)
    requires AsListed(s0, w, candidates)
    ensures Legal(w, run)
    ensures var w' := Run(w, run);
            && w'.store == KickBatch.KickAll(w.store, s0.subs, settings, telegram, w.now, candidates).store
            && w'.now == w.now && w'.drafts == w.drafts && w'.acts == w.acts
            && (forall i :: i in candidates ==>
                  i < |s0.subs| && KickAt(w', i).point == BatchPoint(s0, settings, telegram, w.now, i))
            && (forall j :: j !in candidates ==> JobsAt(w'.jobs, j) == JobsAt(w.jobs, j))
    decreases |candidates|
  {
    run := [];
    if candidates != [] {
      var i, rest := candidates[0], candidates[1..];
      run := KickAlone(w, i, settings, telegram);
      var next := Run(w, run);
      KickBatch.KickOneInClosedForm(s0, w.store, settings, telegram, w.now, i);
      KickBatch.KickOneClosesRow(w.store, settings, telegram, w.now, i);
      SameBatchPoint(s0, next.store, settings, telegram, w.now, i);
      RestAsListed(s0, w, next, candidates);
      assert forall j :: j in candidates <==> j == i || j in rest;
      var more := KickEachAlone(s0, next, settings, telegram, rest);
      RunConcat(w, run, more);
      run := run + more;
    }
  }

  lemma SameBatchPoint(s0: Store, s: Store, settings: KickBatch.Settings, telegram: KickBatch.Telegram, now: int,
                       i: nat)
    requires KickBatch.PartlyKicked(s0, s, now) && i < |s0.subs|
    ensures BatchPoint(s, settings, telegram, now, i) == BatchPoint(s0, settings, telegram, now, i)
  {
    KickBatch.SameAccess(s0, s, now, s0.subs[i].user);
  }

  lemma RestAsListed(s0: Store, w: World, next: World, candidates: seq<nat>)
    requires candidates != [] && AsListed(s0, w, candidates) && next.now == w.now
    requires KickBatch.PartlyKicked(s0, next.store, w.now)
    requires forall j: nat :: j != candidates[0] && j < |w.store.subs| ==> next.store.subs[j] == w.store.subs[j]
    requires forall j :: j != candidates[0] ==> JobsAt(next.jobs, j) == JobsAt(w.jobs, j)
    ensures AsListed(s0, next, candidates[1..])
  {
    var rest := candidates[1..];
    forall i | i in rest
      ensures i in candidates && i != candidates[0]
    {
      var a :| 0 <= a < |rest| && rest[a] == i;
      assert candidates[a + 1] == i;
    }
  }

  /** Left alone, a run of the job is a run of the ledger that does what the batch does: it closes the same rows,
      and for each candidate it ends with a ban, or with other access found, exactly when the batch's calls say so. */
  lemma LeftAloneItIsTheBatch(w: World, settings: KickBatch.Settings, telegram: KickBatch.Telegram,
                              candidates: seq<nat>)
      returns (run: seq<Event>)
    requires ListsExpired(w.store.subs, w.now, candidates)
    ensures Legal(w, run)
    ensures var s, w' := w.store, Run(w, run);
            && w'.store == KickBatch.KickAll(s, s.subs, settings, telegram, w.now, candidates).store
            && w'.now == w.now && w'.drafts == w.drafts && w'.acts == w.acts
            && forall i :: i in candidates ==>
                 && i < |s.subs|
                 && var point, calls := KickAt(w', i).point, KickBatch.CallsFor(s, settings, telegram, w.now, i);
                    && point in {Banned, Exempt, Served}
                    && (point == Banned <==> exists k :: 0 <= k < |calls| && calls[k].Ban?)
                    && (settings.channel || !settings.dryRun ==> (point == Served <==> calls == []))
    ensures forall j :: j !in candidates ==> JobsAt(Run(w, run).jobs, j) == JobsAt(w.jobs, j)
  {
    var s := w.store;
    run := ListAll(w, candidates);
    var listed := Run(w, run);
    var more := KickEachAlone(s, listed, settings, telegram, candidates);
    RunConcat(w, run, more);
    run := run + more;
    forall i | i in candidates
      ensures i < |s.subs|
      ensures var point, calls := BatchPoint(s, settings, telegram, w.now, i),
                                  KickBatch.CallsFor(s, settings, telegram, w.now, i);
              && (point == Banned <==> exists k :: 0 <= k < |calls| && calls[k].Ban?)
              && (settings.channel || !settings.dryRun ==> (point == Served <==> calls == []))
    {
      BatchPointsByCalls(s, settings, telegram, w.now, i);
    }
  }

  // ----- runs that stop half-way -----

  /** A run of the job has walked the row past its second hop, and has not come to a decision about its owner. */
  predicate StoppedMidway(point: KickPoint) {
    point in {AtThirdHop, AtCheck, AtLookup, AtBan}
  }

  /** The row is KICKED, and the job has decided about its owner. */
  ghost predicate Handled(w: World, i: nat) {
    i < |w.store.subs| && w.store.subs[i].status == KICKED && KickAt(w, i).point in {Served, Exempt, Banned}
  }

  predicate Over(w: World, i: nat) {
    i < |w.store.subs| && w.store.subs[i].expiresAt.Some? && w.store.subs[i].expiresAt.value < w.now
  }

  /** The row was closed before the history starts. */
  predicate ClosedBefore(w: World, i: nat)
    requires i < |w.store.subs|
  {
    Closed(w.store.subs[i]) && KickAt(w, i).point == NotListed
  }

  /** Whatever earlier runs did, a later one that is left alone sees to every row that is over, exactly unless an
      earlier run stopped at the row past its second hop, or the row was closed before the history starts. */
  lemma LaterRunHandlesExactly(w: World, settings: KickBatch.Settings, telegram: KickBatch.Telegram,
                               candidates: seq<nat>)
      returns (run: seq<Event>)
    requires RowsSound(w) && ListsExpired(w.store.subs, w.now, candidates)
    ensures Legal(w, run)
    ensures Run(w, run).now == w.now
    ensures Run(w, run).store ==
            KickBatch.KickAll(w.store, w.store.subs, settings, telegram, w.now, candidates).store
    ensures forall i: nat :: Over(w, i) ==>
              (Handled(Run(w, run), i) <==> !StoppedMidway(KickAt(w, i).point) && !ClosedBefore(w, i))
  {
    run := LeftAloneItIsTheBatch(w, settings, telegram, candidates);
    KickBatch.BatchClosesExactlyTheExpired(w.store, settings, telegram, w.now, candidates);
    forall i: nat | Over(w, i)
      ensures Handled(Run(w, run), i) <==> !StoppedMidway(KickAt(w, i).point) && !ClosedBefore(w, i)
    {
      RowHandledExactly(w, Run(w, run), candidates, i);
    }
  }

  lemma RowHandledExactly(w: World, w': World, candidates: seq<nat>, i: nat)
    requires RowsSound(w) && ListsExpired(w.store.subs, w.now, candidates) && Over(w, i)
    requires w'.store.subs == KickBatch.AllKicked(w.store.subs, w.now)
    requires i in candidates ==> KickAt(w', i).point in {Banned, Exempt, Served}
    requires i !in candidates ==> JobsAt(w'.jobs, i) == JobsAt(w.jobs, i)
    ensures Handled(w', i) <==> !StoppedMidway(KickAt(w, i).point) && !ClosedBefore(w, i)
  {
    assert Sound(StateOf(w, i), Cycle(w.acts, i), w.now);
  }

  /** Every row of the user's that is over has been seen to. */
  ghost predicate UserHandled(w: World, user: nat) {
    forall i: nat | i < |w.store.subs| && w.store.subs[i].user == user && Over(w, i) :: Handled(w, i)
  }

  /** An earlier run stopped past its second hop at a row of the user's that is over. */
  ghost predicate UserStranded(w: World, user: nat) {
    exists i: nat | i < |w.store.subs| ::
      w.store.subs[i].user == user && Over(w, i) && (StoppedMidway(KickAt(w, i).point) || ClosedBefore(w, i))
  }

  /** For a user: after the later run, all of their rows that are over have been seen to exactly unless an earlier run
      stopped at one of them past its second hop, or one was closed before the history starts. */
  lemma LaterRunHandlesUser(w: World, settings: KickBatch.Settings, telegram: KickBatch.Telegram,
                            candidates: seq<nat>, user: nat)
      returns (run: seq<Event>)
    requires RowsSound(w) && ListsExpired(w.store.subs, w.now, candidates)
    ensures Legal(w, run)
    ensures UserHandled(Run(w, run), user) <==> !UserStranded(w, user)
  {
    run := LaterRunHandlesExactly(w, settings, telegram, candidates);
    KickBatch.BatchClosesExactlyTheExpired(w.store, settings, telegram, w.now, candidates);
    var w' := Run(w, run);
    assert |w'.store.subs| == |w.store.subs|;
    assert w'.now == w.now;
    forall i: nat | i < |w.store.subs|
      ensures Over(w', i) <==> Over(w, i)
      ensures w'.store.subs[i].user == w.store.subs[i].user
    {
    }
  }

  /** Nothing but the stopped run itself ever takes such a row up again: no later listing, payment or visit. */
  lemma {:induction false} StoppedForever(w: World, run: seq<Event>, i: nat)
    requires RowsSound(w) && Inv(w) && Legal(w, run) && i < |w.store.subs| && StoppedMidway(KickAt(w, i).point)
    requires KickStep(i) !in run && KickExempt(i) !in run
    ensures i < |Run(w, run).store.subs| && Run(w, run).store.subs[i].status == w.store.subs[i].status
    ensures KickAt(Run(w, run), i).point == KickAt(w, i).point
    decreases |run|
  {
    if run != [] {
      StoppedStays(w, run[0], i);
      StepKeepsInv(w, run[0]);
      StepKeepsRows(w, run[0]);
      StoppedForever(Next(w, run[0]), run[1..], i);
    }
  }

  lemma StoppedStays(w: World, e: Event, i: nat)
    requires RowsSound(w) && Enabled(w, e) && i < |w.store.subs| && StoppedMidway(KickAt(w, i).point)
    requires e != KickStep(i) && e != KickExempt(i)
    ensures i < |Next(w, e).store.subs| && Next(w, e).store.subs[i].status == w.store.subs[i].status
    ensures KickAt(Next(w, e), i).point == KickAt(w, i).point
  {
    assert Sound(StateOf(w, i), Cycle(w.acts, i), w.now);
    RowStep(w, e, i);
  }
}
