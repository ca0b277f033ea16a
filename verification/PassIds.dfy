/**
 The ids passes run under. An id is a digest of the watermark a pass starts from and the last
 turn of its window, so a retry may or may not share the id of the attempt it repeats. While
 no turn is deleted and the window size stays, ids only move on.
 */
module PassIds {
  import opened Tables
  import opened Windows
  import H = Histories

  /** What the digest is taken of, for one store. */
  datatype PassKey = PassKey(from: Option<nat>, upTo: Option<nat>)

  function KeyOn(watermark: Option<nat>, turns: seq<Turn>): PassKey {
    PassKey(watermark, if turns == [] then watermark else Some(turns[|turns| - 1].seqNo))
  }

  function KeyOf(s: Cursors, limit: nat): PassKey {
    KeyOn(s.watermark, NextWindow(s.stream, s.watermark, limit))
  }

  /** The key of the attempt that starts after the first `i` events. */
  function KeyAt(events: seq<Event>, i: nat, limit: nat): PassKey
    requires i <= |events|
  {
    KeyOf(Run(Initial(), events[..i]), limit)
  }

  function Rank(o: Option<nat>): nat {
    if o.Some? then o.value + 1 else 0
  }

  predicate NotAfter(a: PassKey, b: PassKey) {
    Rank(a.from) < Rank(b.from) || (a.from == b.from && Rank(a.upTo) <= Rank(b.upTo))
  }

  /** Turns behind the watermark have greater numbers, up to the head. */
  lemma BehindIsAhead(s: Cursors)
    requires Inv(s)
    ensures forall t <- After(s.stream, Cursor(s.watermark)) :: Cursor(s.watermark) < t.seqNo <= HeadSeq(s.stream)
  {
    var k := CutExists(s.stream, Cursor(s.watermark));
    CutSlices(s.stream, Cursor(s.watermark), k);
    HeadIsMax(s.stream);
  }

  lemma LongerWindow(watermark: Option<nat>, behind: seq<Turn>, t: Turn, limit: nat)
    requires Rank(watermark) <= Rank(Some(t.seqNo)) && (behind != [] ==> behind[|behind| - 1].seqNo <= t.seqNo)
    ensures NotAfter(KeyOn(watermark, Take(behind, limit)), KeyOn(watermark, Take(behind + [t], limit)))
  {
    if |behind| < limit {
      assert Take(behind, limit) == behind && Take(behind + [t], limit) == behind + [t];
    } else {
      assert Take(behind + [t], limit) == behind[..limit] == Take(behind, limit);
    }
  }

  lemma ArriveMovesKey(s: Cursors, id: string, session: string, content: string, limit: nat)
    requires Inv(s)
    ensures NotAfter(KeyOf(s, limit), KeyOf(Next(s, Arrive(id, session, content)), limit))
  {
    var behind, t := After(s.stream, Cursor(s.watermark)), Turn(id, session, content, HeadSeq(s.stream) + 1);
    BehindIsAhead(s);
    AppendAfterCursor(s.stream, t, Cursor(s.watermark));
    if behind != [] { assert behind[|behind| - 1] in behind; }
    LongerWindow(s.watermark, behind, t, limit);
  }

  /** Committing a window moves every later key past the keys before it. */
  lemma CommitMovesKey(s: Cursors, retires: bool)
    requires Inv(s) && s.phase.Planning? && s.phase.turns != []
    ensures Rank(s.watermark) < Rank(Next(s, CommitL1(retires)).watermark)
  {
    var turns, behind := s.phase.turns, After(s.stream, Cursor(s.watermark));
    BehindIsAhead(s);
    assert turns[|turns| - 1] == behind[|turns| - 1];
  }

  lemma KeyMovesOn(s: Cursors, e: Event, limit: nat)
    requires Inv(s)
    ensures NotAfter(KeyOf(s, limit), KeyOf(Next(s, e), limit))
    ensures s.watermark == Next(s, e).watermark ==> Next(s, e).windows == s.windows
  {
    match e
    case Arrive(id, session, content) => ArriveMovesKey(s, id, session, content, limit);
    case CommitL1(retires) => if s.phase.Planning? && s.phase.turns != [] { CommitMovesKey(s, retires); }
    case _ =>
  }

  lemma {:induction false} KeysMoveOn(events: seq<Event>, i: nat, j: nat, limit: nat)
    requires i <= j <= |events|
    ensures NotAfter(KeyAt(events, i, limit), KeyAt(events, j, limit))
    ensures KeyAt(events, i, limit).from == KeyAt(events, j, limit).from ==>
              Run(Initial(), events[..i]).windows == Run(Initial(), events[..j]).windows
    decreases j - i
  {
    if i < j {
      KeysMoveOn(events, i, j - 1, limit);
      assert events[..j][..j - 1] == events[..j - 1];
      RunKeeps(events[..j - 1]);
      KeyMovesOn(Run(Initial(), events[..j - 1]), events[j - 1], limit);
    }
  }

  /** Two attempts under one id committed no window between their starts: the earlier one failed
      in L1, or had no turns. */
  lemma SharedIdMovesNoWindow(events: seq<Event>, i: nat, j: nat, limit: nat)
    requires i <= j <= |events| && KeyAt(events, i, limit) == KeyAt(events, j, limit)
    ensures Run(Initial(), events[..i]).windows == Run(Initial(), events[..j]).windows
  {
    KeysMoveOn(events, i, j, limit);
  }

  // ----- An id tells the window

  lemma {:induction false} AfterSplit(a: seq<Turn>, b: seq<Turn>, c: nat)
    ensures After(a + b, c) == After(a, c) + After(b, c)
  {
    if a == [] {
      assert a + b == b;
    } else {
      assert (a + b)[1..] == a[1..] + b;
      AfterSplit(a[1..], b, c);
    }
  }

  lemma {:induction false} LogGrows(events: seq<Event>, i: nat, j: nat)
    requires i <= j <= |events|
    ensures Run(Initial(), events[..i]).stream <= Run(Initial(), events[..j]).stream
    decreases j - i
  {
    if i < j {
      LogGrows(events, i, j - 1);
      assert events[..j][..j - 1] == events[..j - 1];
    }
  }

  function WindowAt(events: seq<Event>, i: nat, limit: nat): seq<Turn>
    requires i <= |events|
  {
    var s := Run(Initial(), events[..i]);
    NextWindow(s.stream, s.watermark, limit)
  }

  lemma WindowGrows(events: seq<Event>, i: nat, j: nat, limit: nat)
    requires i <= j <= |events| && KeyAt(events, i, limit).from == KeyAt(events, j, limit).from
    ensures WindowAt(events, i, limit) <= WindowAt(events, j, limit)
  {
    var s, d := Run(Initial(), events[..i]), Run(Initial(), events[..j]);
    LogGrows(events, i, j);
    assert d.stream == s.stream + d.stream[|s.stream|..];
    AfterSplit(s.stream, d.stream[|s.stream|..], Cursor(s.watermark));
  }

  /** Turns of a window carry rising numbers above the watermark. */
  ghost predicate Rising(watermark: Option<nat>, turns: seq<Turn>) {
    && (forall i :: 0 <= i < |turns| ==> Cursor(watermark) < turns[i].seqNo)
    && forall i, j :: 0 <= i < j < |turns| ==> turns[i].seqNo < turns[j].seqNo
  }

  lemma WindowRises(s: Cursors, limit: nat)
    requires Inv(s)
    ensures Rising(s.watermark, NextWindow(s.stream, s.watermark, limit))
  {
    var k := CutExists(s.stream, Cursor(s.watermark));
    CutSlices(s.stream, Cursor(s.watermark), k);
    BehindRises(s.stream, s.watermark, k, NextWindow(s.stream, s.watermark, limit));
  }

  lemma BehindRises(stream: seq<Turn>, watermark: Option<nat>, k: nat, turns: seq<Turn>)
    requires k <= |stream| && Ordered(stream) && CutAt(stream, Cursor(watermark), k) && turns <= stream[k..]
    ensures Rising(watermark, turns)
  {
    forall i | 0 <= i < |turns| ensures turns[i] == stream[k + i] {
      assert turns[i] == stream[k..][i];
    }
  }

  lemma LongerEndsLater(watermark: Option<nat>, a: seq<Turn>, b: seq<Turn>)
    requires a <= b && Rising(watermark, b) && KeyOn(watermark, a) == KeyOn(watermark, b)
    ensures a == b
  {
    assert a != [] ==> b[|a| - 1] == a[|a| - 1];
    assert b != [] ==> Cursor(watermark) < b[|b| - 1].seqNo;
  }

  /** Two attempts of a run have one key exactly when they start from the same watermark with the
      same turns. */
  lemma KeyTellsWindow(events: seq<Event>, i: nat, j: nat, limit: nat)
    requires i <= j <= |events|
    ensures KeyAt(events, i, limit) == KeyAt(events, j, limit)
            <==> Run(Initial(), events[..i]).watermark == Run(Initial(), events[..j]).watermark
                 && WindowAt(events, i, limit) == WindowAt(events, j, limit)
  {
    if KeyAt(events, i, limit) == KeyAt(events, j, limit) {
      WindowGrows(events, i, j, limit);
      RunKeeps(events[..j]);
      WindowRises(Run(Initial(), events[..j]), limit);
      LongerEndsLater(Run(Initial(), events[..j]).watermark, WindowAt(events, i, limit), WindowAt(events, j, limit));
    }
  }

  predicate StartsInOrder(events: seq<Event>, starts: seq<nat>) {
    && (forall k :: 0 <= k < |starts| ==> starts[k] <= |events|)
    && forall i, j :: 0 <= i < j < |starts| ==> starts[i] <= starts[j]
  }

  /** The attempts started at these points of a run, under the ids of what they found. */
  ghost predicate StartedAt(entries: seq<H.Entry>, events: seq<Event>, starts: seq<nat>, limit: nat, passId: PassKey -> string) {
    && StartsInOrder(events, starts) && |starts| == |entries|
    && forall k :: 0 <= k < |starts| ==> entries[k].id == passId(KeyAt(events, starts[k], limit))
  }

  lemma KeyBetween(events: seq<Event>, a: nat, b: nat, c: nat, limit: nat)
    requires a <= b <= c <= |events| && KeyAt(events, a, limit) == KeyAt(events, c, limit)
    ensures KeyAt(events, b, limit) == KeyAt(events, a, limit)
  {
    KeysMoveOn(events, a, b, limit);
    KeysMoveOn(events, b, c, limit);
    NothingBetween(KeyAt(events, a, limit), KeyAt(events, b, limit));
  }

  lemma NothingBetween(a: PassKey, b: PassKey)
    requires NotAfter(a, b) && NotAfter(b, a)
    ensures a == b
  {
  }

  /** So attempts under one id follow each other. */
  lemma IdsAreConsecutive(entries: seq<H.Entry>, events: seq<Event>, starts: seq<nat>, limit: nat, passId: PassKey -> string)
    requires StartedAt(entries, events, starts, limit, passId)
    requires forall a, b :: passId(a) == passId(b) ==> a == b
    ensures H.Consecutive(entries)
  {
    forall i, j, k | H.Spans(entries, i, j, k) ensures entries[j].id == entries[i].id {
      KeyBetween(events, starts[i], starts[j], starts[k], limit);
    }
  }
}
