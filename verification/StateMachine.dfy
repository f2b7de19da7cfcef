/** The status machine that every change of a subscription's status goes through. */
module StateMachine {

  datatype Status = PENDING | ACTIVE | EXPIRING | EXPIRED | KICKED

  function Successors(from: Status): set<Status> {
    match from
    case PENDING => {ACTIVE}
    case ACTIVE => {EXPIRING, ACTIVE}
    case EXPIRING => {ACTIVE, EXPIRED}
    case EXPIRED => {ACTIVE, KICKED}
    case KICKED => {ACTIVE}
  }

  predicate CanTransition(from: Status, to: Status) {
    to in Successors(from)
  }

  /** How far a status is along the way from PENDING to KICKED. */
  function Rank(s: Status): nat {
    match s
    case PENDING => 0
    case ACTIVE => 1
    case EXPIRING => 2
    case EXPIRED => 3
    case KICKED => 4
  }

  /** The allowed moves are to ACTIVE, from anywhere, and one step on along the way. */
  lemma MovesAreOneStepOrBack(from: Status, to: Status)
    ensures CanTransition(from, to) <==> to == ACTIVE || Rank(to) == Rank(from) + 1
  {
  }

  /** ACTIVE and EXPIRING are the two statuses under which a subscriber has access. */
  predicate IsLive(s: Status) {
    s == ACTIVE || s == EXPIRING
  }

  /** A history of statuses in which every consecutive pair is an allowed move. */
  ghost predicate Walk(history: seq<Status>) {
    forall k :: 0 < k < |history| ==> CanTransition(history[k - 1], history[k])
  }

  /** No history jumps to KICKED: one that starts live or PENDING and ends in KICKED
      passed through ACTIVE, EXPIRING and EXPIRED immediately before. */
  lemma KickedIsReachedOneHopAtATime(history: seq<Status>)
    requires |history| > 0 && Walk(history)
    requires history[0] == PENDING || history[0] == ACTIVE
    requires history[|history| - 1] == KICKED
    ensures |history| >= 4
    ensures history[|history| - 4..] == [ACTIVE, EXPIRING, EXPIRED, KICKED]
  {
    var n := |history|;
    assert CanTransition(history[n - 2], history[n - 1]);
    assert CanTransition(history[n - 3], history[n - 2]);
    assert CanTransition(history[n - 4], history[n - 3]);
  }

  /** PENDING is a starting status only: no allowed move leads back to it, so it can only come first. */
  lemma PendingOnlyComesFirst(history: seq<Status>, k: nat)
    requires Walk(history) && 0 < k < |history|
    ensures history[k] != PENDING
  {
    assert CanTransition(history[k - 1], history[k]);
  }
}
