/** Splitting a report into messages of limited length without splitting a line. */
module Splitter {

  /** The lines joined by newlines. */
  function Joined(lines: seq<string>): string {
    if lines == [] then ""
    else if |lines| == 1 then lines[0]
    else Joined(lines[..|lines| - 1]) + "\n" + lines[|lines| - 1]
  }

  /** Length of the joined lines. */
  function Length(lines: seq<string>): (n: nat)
    ensures n == |Joined(lines)|
  {
    if lines == [] then 0
    else if |lines| == 1 then |lines[0]|
    else Length(lines[..|lines| - 1]) + 1 + |lines[|lines| - 1]|
  }

  function JoinedAll(groups: seq<seq<string>>): (r: seq<string>)
    ensures |r| == |groups|
  {
    seq(|groups|, k requires 0 <= k < |groups| => Joined(groups[k]))
  }

  function Flatten(groups: seq<seq<string>>): seq<string> {
    if groups == [] then [] else groups[0] + Flatten(groups[1..])
  }

  /** A group may be one message: it keeps within the limit, or is a single line that cannot. */
  predicate Fits(group: seq<string>, limit: int) {
    group != [] && (Length(group) <= limit || |group| == 1)
  }

  /** The groups are the lines, in order, cut into allowed messages. */
  ghost predicate IsSplit(groups: seq<seq<string>>, lines: seq<string>, limit: int) {
    Flatten(groups) == lines && forall k :: 0 <= k < |groups| ==> Fits(groups[k], limit)
  }

  /** How many more of the `rest` the group `current` takes: a line goes in while the group stays within the limit. */
  function Takes(current: seq<string>, rest: seq<string>, limit: int): (n: nat)
    ensures n <= |rest|
    decreases |rest|
  {
    if rest == [] || (current != [] && Length(current + [rest[0]]) > limit) then 0
    else 1 + Takes(current + [rest[0]], rest[1..], limit)
  }

  /** Cutting off the longest allowed first message, again and again. */
  function Greedy(lines: seq<string>, limit: int): seq<seq<string>>
    decreases |lines|
  {
    if lines == [] then []
    else
      var n := Takes([], lines, limit);
      [lines[..n]] + Greedy(lines[n..], limit)
  }

  // ----- the groups are a split -----

  /** One line moved from the front of the rest to the end of what is collected. */
  lemma MoveOne(current: seq<string>, rest: seq<string>, n: nat)
    requires 0 < n <= |rest|
    ensures current + rest[..n] == (current + [rest[0]]) + rest[1..][..n - 1]
  {
    assert rest[..n] == [rest[0]] + rest[1..][..n - 1];
    assert current + ([rest[0]] + rest[1..][..n - 1]) == (current + [rest[0]]) + rest[1..][..n - 1];
  }

  lemma NothingTaken(current: seq<string>, rest: seq<string>)
    ensures current + rest[..0] == current
  {
  }

  lemma {:induction false} TakenFits(current: seq<string>, rest: seq<string>, limit: int)
    requires current != [] && Fits(current, limit)
    ensures Fits(current + rest[..Takes(current, rest, limit)], limit)
    decreases |rest|
  {
    var n := Takes(current, rest, limit);
    if n == 0 {
      NothingTaken(current, rest);
    } else {
      TakenFits(current + [rest[0]], rest[1..], limit);
      MoveOne(current, rest, n);
    }
  }

  /** The first message takes at least one line and is allowed. */
  lemma FirstMessage(lines: seq<string>, limit: int)
    requires lines != []
    ensures 1 <= Takes([], lines, limit) && Fits(lines[..Takes([], lines, limit)], limit)
  {
    var n := Takes([], lines, limit);
    assert [] + [lines[0]] == [lines[0]];
    TakenFits([lines[0]], lines[1..], limit);
    assert lines[..n] == [lines[0]] + lines[1..][..n - 1];
  }

  lemma SplitOneMore(group: seq<string>, groups: seq<seq<string>>, lines: seq<string>, limit: int)
    requires Fits(group, limit) && IsSplit(groups, lines, limit)
    ensures IsSplit([group] + groups, group + lines, limit)
  {
    assert ([group] + groups)[1..] == groups;
  }

  lemma CutAt(lines: seq<string>, n: nat)
    requires n <= |lines|
    ensures lines == lines[..n] + lines[n..]
  {
  }

  /** Joining the messages' lines gives back the lines in order, and every message is within the limit
      unless it is a single line longer than that. */
  lemma {:induction false} GreedyIsSplit(lines: seq<string>, limit: int)
    ensures IsSplit(Greedy(lines, limit), lines, limit)
    decreases |lines|
  {
    if lines != [] {
      var n := Takes([], lines, limit);
      FirstMessage(lines, limit);
      GreedyIsSplit(lines[n..], limit);
      SplitOneMore(lines[..n], Greedy(lines[n..], limit), lines[n..], limit);
      CutAt(lines, n);
    }
  }

  // ----- no split has fewer messages -----

  /** Dropping lines from a group never makes it longer. */
  lemma {:induction false} LengthGrows(a: seq<string>, b: seq<string>)
    ensures Length(a) <= Length(a + b) && Length(b) <= Length(a + b)
    decreases |b|
  {
    if b == [] {
      assert a + b == a;
    } else {
      var n := |b| - 1;
      LengthGrows(a, b[..n]);
      if a + b != b {
        assert (a + b)[..|a + b| - 1] == a + b[..n];
      } else {
        assert a == [];
      }
    }
  }

  /** Greedy takes at least as many lines as any allowed prefix has. */
  lemma {:induction false} TakesAtLeast(current: seq<string>, rest: seq<string>, k: nat, limit: int)
    requires k <= |rest| && current + rest[..k] != [] && Fits(current + rest[..k], limit)
    ensures Takes(current, rest, limit) >= k
    decreases |rest|
  {
    if k > 0 {
      MoveOne(current, rest, k);
      if current != [] {
        LengthGrows(current + [rest[0]], rest[1..][..k - 1]);
      }
      TakesAtLeast(current + [rest[0]], rest[1..], k - 1, limit);
    }
  }

  /** Greedy's first message reaches at least to the end of the piece of the split's first group that is left. */
  lemma FirstMessageReaches(dropped: seq<string>, piece: seq<string>, tail: seq<string>, limit: int)
    requires piece != [] && Fits(dropped + piece, limit)
    ensures Takes([], piece + tail, limit) >= |piece|
  {
    LengthGrows(dropped, piece);
    assert [] + (piece + tail)[..|piece|] == piece;
    TakesAtLeast([], piece + tail, |piece|, limit);
  }

  /** Two ways to cut the same lines in two: the longer front contains the shorter one. */
  lemma Overlap(a: seq<string>, b: seq<string>, c: seq<string>, d: seq<string>)
    requires a + b == c + d && |c| <= |a|
    ensures a == c + a[|c|..] && d == a[|c|..] + b
  {
    assert a[..|c|] == (a + b)[..|c|] == c;
    assert a[|c|..] + b == (a + b)[|c|..] == (c + d)[|c|..] == d;
  }

  /** The end of a split's lines needs no more messages than the split has. */
  lemma {:induction false} GreedyOnSuffix(groups: seq<seq<string>>, dropped: seq<string>, suffix: seq<string>,
                                          limit: int)
    requires IsSplit(groups, dropped + suffix, limit)
    ensures |Greedy(suffix, limit)| <= |groups|
    decreases |groups|, 0
  {
    if groups != [] && suffix != [] {
      var first, others := groups[0], groups[1..];
      var tail := Flatten(others);
      assert IsSplit(others, tail, limit);
      assert dropped + suffix == first + tail;
      if |dropped| >= |first| {
        var later := dropped[|first|..];
        Overlap(dropped, suffix, first, tail);
        GreedyOnSuffix(others, later, suffix, limit);
      } else {
        var piece := first[|dropped|..];
        Overlap(first, tail, dropped, suffix);
        FirstMessageReaches(dropped, piece, tail, limit);
        GreedyAfterPiece(others, piece, tail, limit);
      }
    }
  }

  lemma {:induction false} GreedyAfterPiece(others: seq<seq<string>>, piece: seq<string>, tail: seq<string>, limit: int)
    requires IsSplit(others, tail, limit) && piece != []
    requires Takes([], piece + tail, limit) >= |piece|
    ensures |Greedy(piece + tail, limit)| <= 1 + |others|
    decreases |others|, 1
  {
    var suffix := piece + tail;
    var n := Takes([], suffix, limit);
    var taken, left := tail[..n - |piece|], tail[n - |piece|..];
    assert suffix[n..] == left;
    assert tail == taken + left;
    GreedyOnSuffix(others, taken, left, limit);
  }

  /** No way to cut the lines into allowed messages uses fewer of them. */
  lemma GreedyIsMinimal(groups: seq<seq<string>>, lines: seq<string>, limit: int)
    requires IsSplit(groups, lines, limit)
    ensures |Greedy(lines, limit)| <= |groups|
  {
    assert [] + lines == lines;
    GreedyOnSuffix(groups, [], lines, limit);
  }

  // ----- the loop -----

  /** What remains to be sent once `current` has been collected and `rest` is still to be read. */
  function Remaining(current: seq<string>, rest: seq<string>, limit: int): seq<seq<string>> {
    if current == [] then Greedy(rest, limit)
    else
      var n := Takes(current, rest, limit);
      [current + rest[..n]] + Greedy(rest[n..], limit)
  }

  /** Starting over with a line is the same as having collected just that line. */
  lemma GreedyStartsWithLine(line: string, later: seq<string>, limit: int)
    ensures Greedy([line] + later, limit) == Remaining([line], later, limit)
  {
    var rest := [line] + later;
    assert rest[0] == line && rest[1..] == later;
    var m := Takes([line], later, limit);
    assert [] + [line] == [line];
    assert Takes([], rest, limit) == 1 + m;
    assert rest[..1 + m] == [line] + later[..m];
    assert rest[1 + m..] == later[m..];
  }

  /** The line does not go into the message being collected: that message is done. */
  lemma LineStartsMessage(current: seq<string>, line: string, later: seq<string>, limit: int)
    requires current != [] && Length(current + [line]) > limit
    ensures Remaining(current, [line] + later, limit) == [current] + Remaining([line], later, limit)
  {
    var rest := [line] + later;
    assert rest[0] == line;
    assert Takes(current, rest, limit) == 0;
    assert current + rest[..0] == current && rest[0..] == rest;
    GreedyStartsWithLine(line, later, limit);
  }

  /** The line goes into the message being collected. */
  lemma LineJoinsMessage(current: seq<string>, line: string, later: seq<string>, limit: int)
    requires current == [] || Length(current + [line]) <= limit
    ensures Remaining(current, [line] + later, limit) == Remaining(current + [line], later, limit)
  {
    var rest := [line] + later;
    assert rest[0] == line && rest[1..] == later;
    var m := Takes(current + [line], later, limit);
    assert Takes(current, rest, limit) == 1 + m;
    assert rest[..1 + m] == [line] + later[..m];
    assert current + rest[..1 + m] == (current + [line]) + later[..m];
    assert rest[1 + m..] == later[m..];
    if current == [] {
      assert current + rest[..1 + m] == rest[..1 + m];
    }
  }

  lemma LengthOneMore(current: seq<string>, line: string)
    ensures Length(current + [line]) == Length(current) + |line| + (if current != [] then 1 else 0)
  {
    assert (current + [line])[..|current|] == current;
  }

  lemma JoinedAllCons(group: seq<string>, groups: seq<seq<string>>)
    ensures JoinedAll([group] + groups) == [Joined(group)] + JoinedAll(groups)
  {
  }

  /** With `chunks` sent and `current` collected, reading `rest` completes `all`. */
  ghost predicate Completes(all: seq<string>, chunks: seq<string>, current: seq<string>, rest: seq<string>,
                            limit: int) {
    all == chunks + JoinedAll(Remaining(current, rest, limit))
  }

  lemma LineSent(all: seq<string>, chunks: seq<string>, current: seq<string>, line: string, later: seq<string>,
                 limit: int)
    requires Completes(all, chunks, current, [line] + later, limit)
    ensures if current != [] && Length(current + [line]) > limit
            then Completes(all, chunks + [Joined(current)], [line], later, limit)
            else Completes(all, chunks, current + [line], later, limit)
  {
    if current != [] && Length(current + [line]) > limit {
      LineStartsMessage(current, line, later, limit);
      var others := Remaining([line], later, limit);
      JoinedAllCons(current, others);
      assert chunks + ([Joined(current)] + JoinedAll(others)) == (chunks + [Joined(current)]) + JoinedAll(others);
    } else {
      LineJoinsMessage(current, line, later, limit);
    }
  }

  /** The loop's step: one more line read. */
  lemma LineRead(all: seq<string>, chunks: seq<string>, current: seq<string>, lines: seq<string>, i: nat, limit: int)
    requires i < |lines| && Completes(all, chunks, current, lines[i..], limit)
    ensures Length(current + [lines[i]]) == Length(current) + |lines[i]| + (if current != [] then 1 else 0)
    ensures if current != [] && Length(current + [lines[i]]) > limit
            then Completes(all, chunks + [Joined(current)], [lines[i]], lines[i + 1..], limit)
            else Completes(all, chunks, current + [lines[i]], lines[i + 1..], limit)
  {
    assert lines[i..] == [lines[i]] + lines[i + 1..];
    LengthOneMore(current, lines[i]);
    LineSent(all, chunks, current, lines[i], lines[i + 1..], limit);
  }

  lemma NothingLeft(all: seq<string>, chunks: seq<string>, current: seq<string>, limit: int)
    requires Completes(all, chunks, current, [], limit)
    ensures all == if current == [] then chunks else chunks + [Joined(current)]
  {
    if current != [] {
      var none: seq<string> := [];
      assert current + none[..0] == current && none[0..] == none;
      assert Remaining(current, none, limit) == [current] + [];
      JoinedAllCons(current, []);
    }
  }

  // ----- the text of a message -----

  /** Where line `k` starts in a text that holds the lines one after the other, each followed by one more character. */
  function Offset(lines: seq<string>, k: nat): nat
    requires k <= |lines|
  {
    if k == 0 then 0 else Offset(lines, k - 1) + |lines[k - 1]| + 1
  }

  lemma {:induction false} OffsetOfPrefix(lines: seq<string>, more: seq<string>, k: nat)
    requires k <= |lines|
    ensures Offset(lines + more, k) == Offset(lines, k)
  {
    if k > 0 {
      OffsetOfPrefix(lines, more, k - 1);
    }
  }

  /** Line `k` stands in the text, at its place. */
  predicate StandsAt(text: string, lines: seq<string>, k: nat)
    requires k < |lines|
  {
    var at, len := Offset(lines, k), |lines[k]|;
    at + len <= |text| && text[at..at + len] == lines[k]
  }

  /** A newline stands in the text just before the place of line `k`. */
  predicate NewlineBefore(text: string, lines: seq<string>, k: nat)
    requires k < |lines|
  {
    0 < Offset(lines, k) <= |text| && text[Offset(lines, k) - 1] == '\n'
  }

  /** The text consists of the lines, in order, with a newline between any two that follow one another,
      and of nothing else. */
  ghost predicate Spells(text: string, lines: seq<string>) {
    && lines != [] && |text| + 1 == Offset(lines, |lines|)
    && (forall k: nat | k < |lines| :: StandsAt(text, lines, k))
    && (forall k: nat | 0 < k < |lines| :: NewlineBefore(text, lines, k))
  }

  lemma SpellsOne(line: string)
    ensures Spells(line, [line])
  {
    assert Offset([line], 1) == Offset([line], 0) + |[line][0]| + 1;
    assert StandsAt(line, [line], 0);
  }

  lemma StillStands(text: string, lines: seq<string>, line: string, k: nat)
    requires k < |lines| && StandsAt(text, lines, k)
    ensures StandsAt(text + "\n" + line, lines + [line], k)
  {
    OffsetOfPrefix(lines, [line], k);
    assert (lines + [line])[k] == lines[k];
    var at, len := Offset(lines, k), |lines[k]|;
    assert (text + "\n" + line)[at..at + len] == text[at..at + len];
  }

  lemma SpellsOneMore(text: string, lines: seq<string>, line: string)
    requires Spells(text, lines)
    ensures Spells(text + "\n" + line, lines + [line])
  {
    var more, longer, n := lines + [line], text + "\n" + line, |lines|;
    OffsetOfPrefix(lines, [line], n);
    assert Offset(more, n) == |text| + 1;
    assert Offset(more, n + 1) == Offset(more, n) + |more[n]| + 1;
    forall k: nat | k <= n ensures StandsAt(longer, more, k) {
      if k < n {
        StillStands(text, lines, line, k);
      } else {
        assert longer[|text| + 1..] == line;
      }
    }
    forall k: nat | 0 < k <= n ensures NewlineBefore(longer, more, k) {
      OffsetOfPrefix(lines, [line], k);
      if k < n {
        assert NewlineBefore(text, lines, k);
      }
    }
  }

  lemma {:induction false} JoinedSpells(lines: seq<string>)
    requires lines != []
    ensures Spells(Joined(lines), lines)
    decreases |lines|
  {
    var n := |lines| - 1;
    if n == 0 {
      SpellsOne(lines[0]);
      assert lines == [lines[0]];
    } else {
      JoinedSpells(lines[..n]);
      SpellsOneMore(Joined(lines[..n]), lines[..n], lines[n]);
      assert lines == lines[..n] + [lines[n]];
    }
  }

  /** Lines are spelled by one text only. */
  lemma OnlyOneSpelling(text: string, other: string, lines: seq<string>)
    requires Spells(text, lines) && Spells(other, lines)
    ensures text == other
  {
    forall p: nat | p < |text| ensures text[p] == other[p] {
      var k := LineAt(lines, p, |lines|);
      if p + 1 == Offset(lines, k + 1) {
        assert NewlineBefore(text, lines, k + 1) && NewlineBefore(other, lines, k + 1);
      } else {
        assert StandsAt(text, lines, k) && StandsAt(other, lines, k);
        var at, len := Offset(lines, k), |lines[k]|;
        assert text[at..at + len][p - at] == other[at..at + len][p - at];
      }
    }
  }

  /** The line that position `p` belongs to, the newline after it included. */
  lemma {:induction false} LineAt(lines: seq<string>, p: nat, n: nat) returns (k: nat)
    requires n <= |lines| && p < Offset(lines, n)
    ensures k < n && Offset(lines, k) <= p < Offset(lines, k + 1)
    decreases n
  {
    if Offset(lines, n - 1) <= p {
      k := n - 1;
    } else {
      k := LineAt(lines, p, n - 1);
    }
  }

  /** The chunks are texts of allowed messages that hold the lines, in order. */
  ghost predicate Sends(chunks: seq<string>, groups: seq<seq<string>>, lines: seq<string>, limit: int) {
    && Flatten(groups) == lines && |chunks| == |groups|
    && forall g :: 0 <= g < |groups| ==> Spells(chunks[g], groups[g]) && (|chunks[g]| <= limit || |groups[g]| == 1)
  }

  lemma GreedySends(lines: seq<string>, limit: int)
    ensures Sends(JoinedAll(Greedy(lines, limit)), Greedy(lines, limit), lines, limit)
  {
    GreedyIsSplit(lines, limit);
    var groups := Greedy(lines, limit);
    forall g | 0 <= g < |groups|
      ensures Spells(JoinedAll(groups)[g], groups[g])
      ensures |JoinedAll(groups)[g]| <= limit || |groups[g]| == 1
    {
      assert Fits(groups[g], limit);
      JoinedSpells(groups[g]);
    }
  }

  /** Whatever sends the lines in allowed messages needs at least as many as the greedy groups. */
  lemma NoFewerChunks(chunks: seq<string>, groups: seq<seq<string>>, lines: seq<string>, limit: int)
    requires Sends(chunks, groups, lines, limit)
    ensures |Greedy(lines, limit)| <= |chunks|
  {
    forall g | 0 <= g < |groups| ensures Fits(groups[g], limit) {
      JoinedSpells(groups[g]);
      OnlyOneSpelling(chunks[g], Joined(groups[g]), groups[g]);
    }
    GreedyIsMinimal(groups, lines, limit);
  }

  lemma GreedySendsFewest(lines: seq<string>, limit: int)
    ensures forall others, groups :: Sends(others, groups, lines, limit) ==> |Greedy(lines, limit)| <= |others|
  {
    forall others, groups | Sends(others, groups, lines, limit) ensures |Greedy(lines, limit)| <= |others| {
      NoFewerChunks(others, groups, lines, limit);
    }
  }

  // ----- the loop as it runs -----

  /** The messages are the greedy groups, each joined by newlines: the texts of allowed messages that hold the lines in
      order, and no fewer would do. */
  method SplitIntoChunks(lines: seq<string>, limit: int) returns (chunks: seq<string>)
    ensures chunks == JoinedAll(Greedy(lines, limit))
    ensures Sends(chunks, Greedy(lines, limit), lines, limit)
    ensures forall others, groups :: Sends(others, groups, lines, limit) ==> |chunks| <= |others|
  {
    chunks := [];
    var current: seq<string> := [];
    var currentLen := 0;
    ghost var all := JoinedAll(Greedy(lines, limit));
    assert lines[0..] == lines;
    for i := 0 to |lines|
      invariant currentLen == Length(current)
      invariant Completes(all, chunks, current, lines[i..], limit)
    {
      var line := lines[i];
      LineRead(all, chunks, current, lines, i, limit);
      var extra := |line| + (if current != [] then 1 else 0);
      if current != [] && currentLen + extra > limit {
        chunks := chunks + [Joined(current)];
        current := [line];
        currentLen := |line|;
      } else {
        current := current + [line];
        currentLen := currentLen + extra;
      }
    }
    assert lines[|lines|..] == [];
    NothingLeft(all, chunks, current, limit);
    if current != [] {
      chunks := chunks + [Joined(current)];
    }
    GreedySends(lines, limit);
    GreedySendsFewest(lines, limit);
  }
}
