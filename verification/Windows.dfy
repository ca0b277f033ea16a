/**
 The L1 cursor over the turn log: a pass reads the turns after the watermark and moves it
 only when its transaction commits, so every turn is distilled in exactly one window.
 */
module Windows {
  import opened Tables
  import opened Packing

  function HeadSeq(stream: seq<Turn>): nat {
    if stream == [] then 0
    else
      var rest := HeadSeq(stream[..|stream| - 1]);
      var last := stream[|stream| - 1].seqNo;
      if last >= rest then last else rest
  }

  lemma {:induction false} HeadIsMax(stream: seq<Turn>)
    ensures forall i :: 0 <= i < |stream| ==> stream[i].seqNo <= HeadSeq(stream)
    ensures stream == [] ==> HeadSeq(stream) == 0
    ensures stream != [] ==> exists i :: 0 <= i < |stream| && stream[i].seqNo == HeadSeq(stream)
  {
    if stream != [] {
      var m := |stream| - 1;
      HeadIsMax(stream[..m]);
      forall i | 0 <= i < |stream| ensures stream[i].seqNo <= HeadSeq(stream) {
        if i < m { assert stream[..m][i] == stream[i]; }
      }
      if stream[m].seqNo < HeadSeq(stream[..m]) {
        var i :| 0 <= i < m && stream[..m][i].seqNo == HeadSeq(stream[..m]);
        assert stream[i].seqNo == HeadSeq(stream);
      }
    }
  }

  /** `MAX(seq)+1`, in the insert itself. */
  function Append(stream: seq<Turn>, id: string, session: string, content: string): seq<Turn> {
    stream + [Turn(id, session, content, HeadSeq(stream) + 1)]
  }

  /** Turns after `afterSeq`, oldest first; rows are kept in sequence order. */
  function After(stream: seq<Turn>, afterSeq: nat): seq<Turn> {
    if stream == [] then []
    else (if stream[0].seqNo > afterSeq then [stream[0]] else []) + After(stream[1..], afterSeq)
  }

  function Upto(stream: seq<Turn>, seqNo: nat): seq<Turn> {
    if stream == [] then []
    else (if stream[0].seqNo <= seqNo then [stream[0]] else []) + Upto(stream[1..], seqNo)
  }

  function Take<T>(s: seq<T>, n: nat): seq<T> { if |s| <= n then s else s[..n] }

  /** The window a pass reads: at most `limit` turns after the watermark. */
  function NextWindow(stream: seq<Turn>, watermark: Option<nat>, limit: nat): seq<Turn> {
    Take(After(stream, Cursor(watermark)), limit)
  }

  function Cursor(watermark: Option<nat>): nat {
    if watermark.Some? then watermark.value else 0
  }

  // ----- One store over time

  datatype Phase =
    | Idle
    | Planning(turns: seq<Turn>)     // L1 at work on a window it has read
    | Reconciling                    // L1 committed, L2 and L3 at work

  /** `windows` records the turns of each committed pass that had any. */
  datatype Cursors = Cursors(stream: seq<Turn>, watermark: Option<nat>, dirty: bool, phase: Phase,
                             windows: seq<seq<Turn>>)

  /** How L2 and L3 end: complete; incomplete and so marked dirty; or thrown part-way. */
  datatype Outcome = Complete | Incomplete | Thrown

  datatype Event =
    | Arrive(id: string, session: string, content: string)
    | Begin(limit: nat)
    | FailL1
    | CommitL1(retires: bool)
    | EndL2(outcome: Outcome)
    | MarkDirty

  /** Events that do not apply in a phase leave the store as it is. */
  function Next(s: Cursors, e: Event): Cursors {
    match e
    case Arrive(id, session, content) => s.(stream := Append(s.stream, id, session, content))
    case MarkDirty => s.(dirty := true)
    case Begin(limit) =>
      if !s.phase.Idle? then s
      else
        var turns := NextWindow(s.stream, s.watermark, limit);
        if turns == [] && !s.dirty then s else s.(phase := Planning(turns))
    case FailL1 => if s.phase.Planning? then s.(phase := Idle) else s
    case CommitL1(retires) =>
      if !s.phase.Planning? then s
      else if s.phase.turns == [] then s.(phase := Reconciling)
      else
        var turns := s.phase.turns;
        s.(phase := Reconciling, dirty := s.dirty || retires, watermark := Some(turns[|turns| - 1].seqNo), windows := s.windows + [turns])
    case EndL2(outcome) =>
      if !s.phase.Reconciling? then s
      else s.(phase := Idle, dirty := match outcome case Complete => false case Incomplete => true case Thrown => s.dirty)
  }

  function Run(s: Cursors, events: seq<Event>): Cursors {
    if events == [] then s
    else Next(Run(s, events[..|events| - 1]), events[|events| - 1])
  }

  function Initial(): Cursors {
    Cursors([], None, false, Idle, [])
  }

  // ----- The invariant

  ghost predicate Ordered(stream: seq<Turn>) {
    && (forall i :: 0 <= i < |stream| ==> stream[i].seqNo > 0)
    && (forall i, j :: 0 <= i < j < |stream| ==> stream[i].seqNo < stream[j].seqNo)
  }

  /** The committed windows, end to end, are exactly the turns up to the watermark; a
      window being worked on is the stretch of turns that follows. */
  ghost predicate Inv(s: Cursors) {
    && Ordered(s.stream)
    && Flatten(s.windows) == Upto(s.stream, Cursor(s.watermark))
    && (forall w :: w in s.windows ==> w != [])
    && Cursor(s.watermark) <= HeadSeq(s.stream)
    && (s.phase.Planning? && s.phase.turns != [] ==>
          s.phase.turns <= After(s.stream, Cursor(s.watermark)))
  }

  /** The turns up to a number are the first k of the log, for one k. */
  ghost predicate CutAt(stream: seq<Turn>, c: nat, k: int) {
    && 0 <= k <= |stream|
    && (forall i :: 0 <= i < k ==> stream[i].seqNo <= c)
    && (forall i :: k <= i < |stream| ==> stream[i].seqNo > c)
  }

  lemma {:induction false} CutSlices(stream: seq<Turn>, c: nat, k: int)
    requires CutAt(stream, c, k)
    ensures Upto(stream, c) == stream[..k] && After(stream, c) == stream[k..]
  {
    if stream != [] {
      CutSlices(stream[1..], c, if k == 0 then 0 else k - 1);
      if k > 0 { assert stream[..k] == [stream[0]] + stream[1..][..k - 1]; }
      assert stream[k..] == (if k == 0 then [stream[0]] + stream[1..] else stream[1..][k - 1..]);
    }
  }

  lemma {:induction false} CutExists(stream: seq<Turn>, c: nat) returns (k: nat)
    requires Ordered(stream)
    ensures CutAt(stream, c, k)
  {
    k := 0;
    while k < |stream| && stream[k].seqNo <= c
      invariant k <= |stream| && forall i :: 0 <= i < k ==> stream[i].seqNo <= c
    {
      k := k + 1;
    }
  }

  lemma Partitioned(stream: seq<Turn>, c: nat)
    requires Ordered(stream)
    ensures Upto(stream, c) + After(stream, c) == stream
  {
    var k := CutExists(stream, c);
    CutSlices(stream, c, k);
  }

  lemma AppendKeepsOrder(stream: seq<Turn>, id: string, session: string, content: string)
    requires Ordered(stream)
    ensures Ordered(Append(stream, id, session, content))
  {
    HeadIsMax(stream);
  }

  lemma AppendAfterCursor(stream: seq<Turn>, t: Turn, c: nat)
    requires Ordered(stream) && t.seqNo > c
    ensures Upto(stream + [t], c) == Upto(stream, c)
    ensures After(stream + [t], c) == After(stream, c) + [t]
  {
    var k := CutExists(stream, c);
    CutSlices(stream, c, k);
    CutSlices(stream + [t], c, k);
  }

  /** A stretch that starts at the cut ends at a cut of its own. */
  lemma CutAfter(stream: seq<Turn>, c: nat, k: nat, m: nat)
    requires Ordered(stream) && CutAt(stream, c, k) && k < m <= |stream|
    ensures CutAt(stream, stream[m - 1].seqNo, m) && c < stream[m - 1].seqNo
  {
  }

  lemma SliceOn<T>(s: seq<T>, k: nat, n: nat)
    requires k + n <= |s|
    ensures s[k..][..n] == s[k..k + n] && s[..k + n] == s[..k] + s[k..k + n] && s[k + n..] == s[k..][n..]
  {
  }

  lemma CommitMovesCursor(stream: seq<Turn>, c: nat, turns: seq<Turn>)
    requires Ordered(stream) && turns != [] && turns <= After(stream, c)
    ensures var c' := turns[|turns| - 1].seqNo;
            && c < c' <= HeadSeq(stream)
            && Upto(stream, c') == Upto(stream, c) + turns
            && After(stream, c') == After(stream, c)[|turns|..]
  {
    var m := CommitCuts(stream, c, turns);
    HeadIsMax(stream);
  }

  lemma CommitCuts(stream: seq<Turn>, c: nat, turns: seq<Turn>) returns (m: nat)
    requires Ordered(stream) && turns != [] && turns <= After(stream, c)
    ensures 0 < m <= |stream| && stream[m - 1] == turns[|turns| - 1]
    ensures var c' := turns[|turns| - 1].seqNo;
            c < c' && Upto(stream, c') == Upto(stream, c) + turns && After(stream, c') == After(stream, c)[|turns|..]
  {
    var k := CutExists(stream, c);
    CutSlices(stream, c, k);
    m := k + |turns|;
    SliceOn(stream, k, |turns|);
    assert turns == stream[k..][..|turns|];
    assert stream[m - 1] == turns[|turns| - 1];
    CutAfter(stream, c, k, m);
    CutSlices(stream, stream[m - 1].seqNo, m);
  }

  lemma TakeIsPrefix<T>(s: seq<T>, n: nat)
    ensures Take(s, n) <= s
  {
  }

  lemma ArriveKeeps(s: Cursors, id: string, session: string, content: string)
    requires Inv(s)
    ensures Inv(Next(s, Arrive(id, session, content)))
  {
    var t := Turn(id, session, content, HeadSeq(s.stream) + 1);
    AppendKeepsOrder(s.stream, id, session, content);
    HeadIsMax(s.stream);
    HeadIsMax(Append(s.stream, id, session, content));
    AppendAfterCursor(s.stream, t, Cursor(s.watermark));
  }

  /** No event moves the watermark back or takes a window away. */
  ghost predicate OnwardFrom(s: Cursors, d: Cursors) {
    Inv(d) && Cursor(s.watermark) <= Cursor(d.watermark) && s.windows <= d.windows
  }

  lemma CommitKeeps(s: Cursors, retires: bool)
    requires Inv(s)
    ensures OnwardFrom(s, Next(s, CommitL1(retires)))
  {
    if s.phase.Planning? && s.phase.turns != [] {
      CommitMovesCursor(s.stream, Cursor(s.watermark), s.phase.turns);
      FlattenAppend(s.windows, s.phase.turns);
    }
  }

  lemma BeginKeeps(s: Cursors, limit: nat)
    requires Inv(s)
    ensures OnwardFrom(s, Next(s, Begin(limit)))
  {
    TakeIsPrefix(After(s.stream, Cursor(s.watermark)), limit);
  }

  lemma QuietKeeps(s: Cursors, e: Event)
    requires Inv(s) && (e.FailL1? || e.EndL2? || e.MarkDirty?)
    ensures OnwardFrom(s, Next(s, e))
  {
    var d := Next(s, e);
    assert d == s.(phase := d.phase, dirty := d.dirty) && (d.phase == Idle || d.phase == s.phase);
  }

  lemma NextKeeps(s: Cursors, e: Event)
    requires Inv(s)
    ensures OnwardFrom(s, Next(s, e))
  {
    match e
    case Arrive(id, session, content) => ArriveKeeps(s, id, session, content);
    case Begin(limit) => BeginKeeps(s, limit);
    case CommitL1(retires) => CommitKeeps(s, retires);
    case _ => QuietKeeps(s, e);
  }

  lemma {:induction false} RunKeeps(events: seq<Event>)
    ensures Inv(Run(Initial(), events))
  {
    if events != [] {
      RunKeeps(events[..|events| - 1]);
      NextKeeps(Run(Initial(), events[..|events| - 1]), events[|events| - 1]);
    }
  }

  // ----- The main results, over every run

  /** The watermark only moves forward, and committed windows are never taken back. */
  lemma {:induction false} WatermarkMonotone(events: seq<Event>, k: nat)
    requires k <= |events|
    ensures Cursor(Run(Initial(), events[..k]).watermark) <= Cursor(Run(Initial(), events).watermark)
    ensures Run(Initial(), events[..k]).windows <= Run(Initial(), events).windows
    decreases |events| - k
  {
    if k == |events| {
      assert events[..k] == events;
    } else {
      var next := events[..k + 1];
      assert next[..|next| - 1] == events[..k];
      RunKeeps(events[..k]);
      NextKeeps(Run(Initial(), events[..k]), events[k]);
      WatermarkMonotone(events, k + 1);
    }
  }

  /** Occurrences of a turn in the committed windows, over all of them. */
  function Committed(windows: seq<seq<Turn>>, t: Turn): nat {
    multiset(Flatten(windows))[t]
  }

  lemma {:induction false} OrderedOccursOnce(stream: seq<Turn>, t: Turn)
    requires Ordered(stream)
    ensures multiset(stream)[t] == if t in stream then 1 else 0
  {
    if stream != [] {
      assert stream == [stream[0]] + stream[1..];
      OrderedOccursOnce(stream[1..], t);
    }
  }

  /** Whatever arrived, failed or was retried, and in whatever order: a turn of the log is
      in exactly one committed window, once, if its number is at or below the watermark,
      and in none otherwise; and the windows hold nothing that is not in the log. */
  lemma ExactlyOnce(events: seq<Event>, t: Turn)
    ensures var s := Run(Initial(), events);
            Committed(s.windows, t) == if t in s.stream && t.seqNo <= Cursor(s.watermark) then 1 else 0
  {
    var s := Run(Initial(), events);
    RunKeeps(events);
    var k := CutExists(s.stream, Cursor(s.watermark));
    CutSlices(s.stream, Cursor(s.watermark), k);
    OrderedOccursOnce(s.stream[..k], t);
  }

  /** Committed windows are consecutive stretches of the log, oldest first. */
  lemma WindowsAreConsecutive(events: seq<Event>)
    ensures var s := Run(Initial(), events);
            Flatten(s.windows) + After(s.stream, Cursor(s.watermark)) == s.stream
  {
    RunKeeps(events);
    Partitioned(Run(Initial(), events).stream, Cursor(Run(Initial(), events).watermark));
  }

  // ----- Draining a backlog

  function CeilDiv(n: nat, w: nat): nat
    requires w > 0
  {
    (n + w - 1) / w
  }

  /** One pass that commits, and completes. */
  function AfterPass(s: Cursors, limit: nat): Cursors {
    Next(Next(Next(s, Begin(limit)), CommitL1(false)), EndL2(Complete))
  }

  function Backlog(s: Cursors): nat { |After(s.stream, Cursor(s.watermark))| }

  lemma PassShortensBacklog(s: Cursors, limit: nat)
    requires Inv(s) && s.phase.Idle? && limit > 0 && Backlog(s) > 0
    ensures var d := AfterPass(s, limit);
            && Inv(d) && d.phase.Idle? && d.stream == s.stream
            && Backlog(d) == (if Backlog(s) <= limit then 0 else Backlog(s) - limit)
            && |d.windows| == |s.windows| + 1
  {
    var turns := NextWindow(s.stream, s.watermark, limit);
    var a := Next(s, Begin(limit));
    assert a == s.(phase := Planning(turns)) && turns != [];
    NextKeeps(s, Begin(limit));
    var b := Next(a, CommitL1(false));
    NextKeeps(a, CommitL1(false));
    NextKeeps(b, EndL2(Complete));
    TakeIsPrefix(After(s.stream, Cursor(s.watermark)), limit);
    CommitMovesCursor(s.stream, Cursor(s.watermark), turns);
    assert After(b.stream, Cursor(b.watermark)) == After(s.stream, Cursor(s.watermark))[|turns|..];
  }

  lemma CeilDivStep(n: nat, w: nat)
    requires w > 0 && n > 0
    ensures CeilDiv(n, w) == 1 + CeilDiv(if n <= w then 0 else n - w, w)
  {
    if n <= w {
      assert (n + w - 1) / w == 1;
      assert (w - 1) / w == 0;
    } else {
      assert n + w - 1 == (n - w + w - 1) + w;
      AddDivisor(n - w + w - 1, w);
    }
  }

  lemma AddDivisor(n: nat, w: nat)
    requires w > 0
    ensures (n + w) / w == n / w + 1
  {
    var q, r := n / w, n % w;
    assert n + w == (q + 1) * w + r;
    DivUnique(n + w, w, q + 1, r);
  }

  lemma DivUnique(n: nat, w: nat, q: nat, r: nat)
    requires w > 0 && n == q * w + r && r < w
    ensures n / w == q
  {
    var q', r' := n / w, n % w;
    assert n == q' * w + r';
    if q' < q { TimesMonotone(q' + 1, q, w); }
    if q < q' { TimesMonotone(q + 1, q', w); }
  }

  lemma TimesMonotone(a: nat, b: nat, w: nat)
    requires a <= b
    ensures a * w <= b * w
  {
  }

  /** Repeating passes over a backlog that stops growing takes exactly ceil(backlog / window)
      of them. */
  method DrainBacklog(start: Cursors, limit: nat) returns (s: Cursors, passes: nat)
    requires Inv(start) && start.phase.Idle? && limit > 0
    ensures passes == CeilDiv(Backlog(start), limit)
    ensures Inv(s) && s.stream == start.stream && Backlog(s) == 0
    ensures |s.windows| == |start.windows| + passes
  {
    s, passes := start, 0;
    while Backlog(s) > 0
      invariant Inv(s) && s.phase.Idle? && s.stream == start.stream
      invariant passes + CeilDiv(Backlog(s), limit) == CeilDiv(Backlog(start), limit)
      invariant |s.windows| == |start.windows| + passes
      decreases Backlog(s)
    {
      var next := AfterPass(s, limit);
      PassDrains(s, next, limit);
      s, passes := next, passes + 1;
    }
    CeilDivZero(0, limit);
  }

  lemma PassDrains(s: Cursors, d: Cursors, limit: nat)
    requires Inv(s) && s.phase.Idle? && limit > 0 && Backlog(s) > 0 && d == AfterPass(s, limit)
    ensures Inv(d) && d.phase.Idle? && d.stream == s.stream && Backlog(d) < Backlog(s)
    ensures CeilDiv(Backlog(s), limit) == 1 + CeilDiv(Backlog(d), limit) && |d.windows| == |s.windows| + 1
  {
    PassShortensBacklog(s, limit);
    CeilDivStep(Backlog(s), limit);
  }

  // ----- Draining, whatever else happens

  /** A window being worked on is the next one of size `w`. */
  ghost predicate Steady(s: Cursors, w: nat) {
    w > 0 && Inv(s) && (s.phase.Planning? ==> s.phase.turns == NextWindow(s.stream, s.watermark, w))
  }

  /** No turn arrives, and every pass reads windows of one size. */
  predicate Closed(e: Event, w: nat) {
    !e.Arrive? && (e.Begin? ==> e.limit == w)
  }

  /** Committed windows, and those the backlog still needs. */
  function Needed(s: Cursors, w: nat): nat
    requires w > 0
  {
    |s.windows| + CeilDiv(Backlog(s), w)
  }

  lemma CommitDrains(s: Cursors, retires: bool, w: nat)
    requires Steady(s, w) && s.phase.Planning? && s.phase.turns != []
    ensures Needed(Next(s, CommitL1(retires)), w) == Needed(s, w)
  {
    var behind, turns := After(s.stream, Cursor(s.watermark)), s.phase.turns;
    TakeIsPrefix(behind, w);
    CommitMovesCursor(s.stream, Cursor(s.watermark), turns);
    CeilDivStep(|behind|, w);
    assert |behind[|turns|..]| == if |behind| <= w then 0 else |behind| - w;
  }

  lemma SteadyStep(s: Cursors, e: Event, w: nat)
    requires Steady(s, w) && Closed(e, w)
    ensures var d := Next(s, e); Steady(d, w) && d.stream == s.stream && Needed(d, w) == Needed(s, w)
  {
    NextKeeps(s, e);
    match e
    case CommitL1(retires) => if s.phase.Planning? && s.phase.turns != [] { CommitDrains(s, retires, w); }
    case _ =>
  }

  lemma {:induction false} SteadyRun(s: Cursors, events: seq<Event>, w: nat)
    requires Steady(s, w) && forall e <- events :: Closed(e, w)
    ensures var d := Run(s, events); Steady(d, w) && d.stream == s.stream && Needed(d, w) == Needed(s, w)
  {
    if events != [] {
      var n := |events| - 1;
      assert events[n] in events && forall e <- events[..n] :: e in events;
      SteadyRun(s, events[..n], w);
      SteadyStep(Run(s, events[..n]), events[n], w);
    }
  }

  lemma CeilDivZero(n: nat, w: nat)
    requires w > 0
    ensures CeilDiv(n, w) == 0 <==> n == 0
  {
    if n > 0 { CeilDivStep(n, w); } else { assert (w - 1) / w == 0; }
  }

  // ----- The backlog in numbers

  /** Without deletions the log is numbered 1, 2, 3, ... */
  ghost predicate Dense(stream: seq<Turn>) {
    forall i :: 0 <= i < |stream| ==> stream[i].seqNo == i + 1
  }

  lemma DenseHead(stream: seq<Turn>)
    requires Dense(stream)
    ensures HeadSeq(stream) == |stream|
  {
    HeadIsMax(stream);
    if stream != [] { assert stream[|stream| - 1].seqNo == |stream|; }
  }

  lemma {:induction false} RunIsDense(s: Cursors, events: seq<Event>)
    requires Dense(s.stream)
    ensures Dense(Run(s, events).stream)
  {
    if events != [] {
      RunIsDense(s, events[..|events| - 1]);
      DenseHead(Run(s, events[..|events| - 1]).stream);
    }
  }

  /** On every run the backlog is the distance from the watermark to the head. */
  lemma BacklogIsDistance(events: seq<Event>)
    ensures var s := Run(Initial(), events);
            Cursor(s.watermark) <= HeadSeq(s.stream) && Backlog(s) == HeadSeq(s.stream) - Cursor(s.watermark)
  {
    var s := Run(Initial(), events);
    RunKeeps(events);
    RunIsDense(Initial(), events);
    DenseHead(s.stream);
    CutSlices(s.stream, Cursor(s.watermark), Cursor(s.watermark));
  }

  /** Once turns stop arriving, the watermark reaches the head exactly when
      ceil((head - watermark) / window) further windows have been committed: failed L1 passes,
      dirty-only passes and passes whose L2 or L3 fails, in any number and order, cost none
      and win none. */
  lemma DrainTakesExactly(earlier: seq<Event>, events: seq<Event>, w: nat)
    requires w > 0 && !Run(Initial(), earlier).phase.Planning? && forall e <- events :: Closed(e, w)
    ensures var s := Run(Initial(), earlier); var d := Run(s, events);
            && Cursor(s.watermark) <= HeadSeq(s.stream)
            && var due := CeilDiv(HeadSeq(s.stream) - Cursor(s.watermark), w);
            && |s.windows| <= |d.windows| <= |s.windows| + due
            && (Cursor(d.watermark) == HeadSeq(d.stream) <==> |d.windows| == |s.windows| + due)
  {
    var s := Run(Initial(), earlier);
    RunKeeps(earlier);
    BacklogIsDistance(earlier);
    SteadyRun(s, events, w);
    var d := Run(s, events);
    RunAppend(Initial(), earlier, events);
    BacklogIsDistance(earlier + events);
    CeilDivZero(Backlog(d), w);
    WindowsGrow(s, events);
  }

  lemma {:induction false} RunAppend(s: Cursors, a: seq<Event>, b: seq<Event>)
    ensures Run(s, a + b) == Run(Run(s, a), b)
  {
    if b == [] {
      assert a + b == a;
    } else {
      RunAppend(s, a, b[..|b| - 1]);
      assert (a + b)[..|a + b| - 1] == a + b[..|b| - 1];
    }
  }

  lemma {:induction false} WindowsGrow(s: Cursors, events: seq<Event>)
    requires Inv(s)
    ensures Inv(Run(s, events)) && s.windows <= Run(s, events).windows
  {
    if events != [] {
      WindowsGrow(s, events[..|events| - 1]);
      NextKeeps(Run(s, events[..|events| - 1]), events[|events| - 1]);
    }
  }

  // ----- When a pass is due

  /** A store marked for reconciliation, by a commit that retired atoms or otherwise, stays so
      until a pass completes its L2 and L3; until then no pass is skipped for want of turns. */
  lemma {:induction false} DueUntilComplete(s: Cursors, events: seq<Event>, limit: nat)
    requires s.dirty && EndL2(Complete) !in events
    ensures var d := Run(s, events); d.dirty && (d.phase.Idle? ==> Next(d, Begin(limit)).phase.Planning?)
  {
    if events != [] {
      var n := |events| - 1;
      assert events[n] in events && forall e <- events[..n] :: e in events;
      DueUntilComplete(s, events[..n], limit);
    }
  }

  lemma MarksDue(s: Cursors, turns: seq<Turn>)
    requires s.phase == Planning(turns) && turns != []
    ensures Next(s, CommitL1(true)).dirty && Next(Next(s, CommitL1(true)), EndL2(Thrown)).dirty
    ensures Next(Next(s, CommitL1(false)), EndL2(Incomplete)).dirty && !Next(Next(s, CommitL1(true)), EndL2(Complete)).dirty
    ensures Next(s, FailL1) == s.(phase := Idle)
  {
  }

  // ----- Why runs exclude deleting turns

  /** A new turn is seen by the next pass exactly when the log still reaches the watermark:
      deleting the newest turns lets a number at or below it be used again. */
  lemma NewTurnSeenExactly(stream: seq<Turn>, watermark: nat, id: string, session: string, content: string)
    requires Ordered(stream)
    ensures var grown := Append(stream, id, session, content);
            grown[|grown| - 1] in After(grown, watermark) <==> HeadSeq(stream) >= watermark
  {
    var grown := Append(stream, id, session, content);
    AppendKeepsOrder(stream, id, session, content);
    var k := CutExists(grown, watermark);
    CutSlices(grown, watermark, k);
  }
}
