/**
 The scene-delta log: each pass records how a scene's membership changed, and a separate
 reader replays the recorded deltas to show the membership at any pass.
 */
module DeltaLog {
  import opened Tables
  import opened TextOrder

  datatype Effect = Created | Updated | RetiredNow | Unchanged

  datatype SceneEffect = SceneEffect(sceneId: string, effect: Effect, membersBefore: nat, membersAfter: nat,
                                     added: seq<string>, removed: seq<string>)

  /** The effect rows retained for one pass. */
  datatype PassLog = PassLog(scenes: seq<SceneEffect>)

  // ----- Writing

  /** Entries of `a` that are not in `b`, in order. */
  function Minus(a: seq<string>, b: seq<string>): (r: seq<string>)
    ensures forall x :: x in r <==> x in a && x !in b
  {
    if a == [] then []
    else
      assert a == [a[0]] + a[1..];
      (if a[0] in b then [] else [a[0]]) + Minus(a[1..], b)
  }

  /** The row for a pass that moved a scene from one membership to another. */
  function NoteChange(sceneId: string, effect: Effect, before: seq<string>, after: seq<string>): SceneEffect {
    SceneEffect(sceneId, effect, |before|, |after|, Minus(after, before), Minus(before, after))
  }

  function NoteCreation(sceneId: string, members: seq<string>): SceneEffect {
    SceneEffect(sceneId, Created, 0, |members|, members, [])
  }

  // ----- Replaying

  datatype Quality = Complete | Partial | Unavailable

  datatype Membership = Membership(quality: Quality, before: seq<string>, after: seq<string>)

  /** The row kept for a scene in one pass: the last, if a pass lists it more than once. */
  function RowFor(pass: PassLog, sceneId: string): Option<SceneEffect> {
    RowAmong(pass.scenes, sceneId)
  }

  function RowAmong(rows: seq<SceneEffect>, sceneId: string): (row: Option<SceneEffect>)
    ensures row.Some? ==> row.value.sceneId == sceneId
  {
    if rows == [] then None
    else if rows[|rows| - 1].sceneId == sceneId then Some(rows[|rows| - 1])
    else RowAmong(rows[..|rows| - 1], sceneId)
  }

  predicate IsBaseline(e: SceneEffect, sceneId: string) {
    e.sceneId == sceneId && e.effect == Created && e.membersBefore == 0 && |e.added| == e.membersAfter
  }

  predicate HasBaseline(pass: PassLog, sceneId: string) {
    exists e <- pass.scenes :: IsBaseline(e, sceneId)
  }

  /** The first pass among `passes[k..stop]` with a trustworthy creation row, -1 if none. */
  function BaselinePass(passes: seq<PassLog>, sceneId: string, k: nat, stop: nat): (b: int)
    requires k <= stop <= |passes|
    ensures b == -1 || k <= b < stop
    decreases stop - k
  {
    if k == stop then -1
    else if HasBaseline(passes[k], sceneId) then k
    else BaselinePass(passes, sceneId, k + 1, stop)
  }

  /** The recorded delta agrees with the membership it is applied to. */
  predicate Agrees(e: SceneEffect, members: seq<string>) {
    && e.membersBefore == |members|
    && (forall x <- e.removed :: x in members)
    && (forall x <- e.added :: x !in members)
  }

  /** `extend` over a generator: each entry is compared with the list as it has grown. */
  function Extend(members: seq<string>, added: seq<string>): seq<string>
    decreases |added|
  {
    if added == [] then members
    else Extend(if added[0] in members then members else members + [added[0]], added[1..])
  }

  function ApplyDelta(e: SceneEffect, members: seq<string>): seq<string> {
    Extend(Minus(members, e.removed), e.added)
  }

  /** State after a pass: a pass without a row keeps the membership and spoils the quality. */
  function ReplayPass(pass: PassLog, sceneId: string, m: Membership): Membership {
    match RowFor(pass, sceneId)
    case None => m.(quality := Partial)
    case Some(e) =>
      var after := ApplyDelta(e, m.after);
      Membership(if Agrees(e, m.after) && e.membersAfter == |after| then m.quality else Partial, m.after, after)
  }

  function Replay(passes: seq<PassLog>, sceneId: string, start: nat, stop: nat): Membership
    requires start <= stop <= |passes|
    decreases stop - start
  {
    if start == stop then Membership(Complete, [], [])
    else ReplayPass(passes[stop - 1], sceneId, Replay(passes, sceneId, start, stop - 1))
  }

  /** What the reader shows for a scene at one pass. */
  function Reconstructed(passes: seq<PassLog>, selected: nat, sceneId: string): Membership
    requires selected < |passes|
  {
    var b := BaselinePass(passes, sceneId, 0, selected + 1);
    if b == -1 then Membership(Unavailable, [], []) else Replay(passes, sceneId, b, selected + 1)
  }

  method ReconstructSceneMembership(passes: seq<PassLog>, selected: nat, sceneId: string) returns (m: Membership)
    requires selected < |passes|
    ensures m == Reconstructed(passes, selected, sceneId)
  {
    var baseline := BaselinePass(passes, sceneId, 0, selected + 1);
    if baseline == -1 { return Membership(Unavailable, [], []); }
    var members: seq<string> := [];
    var before: seq<string> := [];
    var quality := Complete;
    for p := baseline to selected + 1
      invariant Membership(quality, before, members) == Replay(passes, sceneId, baseline, p)
    {
      var effect := RowFor(passes[p], sceneId);
      if effect == None {
        quality := Partial;
      } else {
        var e := effect.value;
        before := members;
        if !Agrees(e, members) { quality := Partial; }
        members := Minus(members, e.removed);
        members := Extend(members, e.added);
        if e.membersAfter != |members| { quality := Partial; }
      }
    }
    return Membership(quality, before, members);
  }

  // ----- The round trip

  lemma {:induction false} MinusDistinct(a: seq<string>, b: seq<string>)
    requires Distinct(a)
    ensures Distinct(Minus(a, b))
  {
    if a != [] {
      MinusDistinct(a[1..], b);
      assert a[0] !in a[1..];
    }
  }

  lemma {:induction false} ExtendFresh(members: seq<string>, added: seq<string>)
    requires Distinct(members) && Distinct(added) && forall x :: x in added ==> x !in members
    ensures Extend(members, added) == members + added
    ensures Distinct(members + added)
    decreases |added|
  {
    if added == [] {
      assert members + added == members;
    } else {
      assert added == [added[0]] + added[1..];
      assert added[0] in added && added[0] !in added[1..];
      ExtendFresh(members + [added[0]], added[1..]);
      assert members + [added[0]] + added[1..] == members + added;
    }
  }

  ghost predicate SameMembers(a: seq<string>, b: seq<string>) {
    Distinct(a) && Distinct(b) && forall x :: x in a <==> x in b
  }

  lemma {:induction false} SameMembersSameCount(a: seq<string>, b: seq<string>)
    requires SameMembers(a, b)
    ensures |a| == |b|
  {
    SizeOfDistinct(a);
    SizeOfDistinct(b);
    assert (set x | x in a) == (set x | x in b);
  }

  lemma {:induction false} SizeOfDistinct(a: seq<string>)
    requires Distinct(a)
    ensures |(set x | x in a)| == |a|
  {
    if a != [] {
      SizeOfDistinct(a[1..]);
      assert a == [a[0]] + a[1..] && a[0] !in a[1..];
      assert (set x | x in a) == (set x | x in a[1..]) + {a[0]};
    }
  }

  /** Replaying the row of a change turns any listing of the old members into a listing of
      the new ones, and finds the row consistent. */
  lemma ReplayChange(sceneId: string, effect: Effect, before: seq<string>, after: seq<string>, members: seq<string>)
    requires SameMembers(members, before) && Distinct(after)
    ensures var e := NoteChange(sceneId, effect, before, after);
            && Agrees(e, members)
            && SameMembers(ApplyDelta(e, members), after) && e.membersAfter == |ApplyDelta(e, members)|
  {
    var e := NoteChange(sceneId, effect, before, after);
    SameMembersSameCount(members, before);
    MinusDistinct(members, e.removed);
    MinusDistinct(after, before);
    ExtendFresh(Minus(members, e.removed), e.added);
    SameMembersSameCount(ApplyDelta(e, members), after);
  }

  lemma ReplayCreation(sceneId: string, members: seq<string>)
    requires Distinct(members)
    ensures var e := NoteCreation(sceneId, members);
            IsBaseline(e, sceneId) && Agrees(e, []) && ApplyDelta(e, []) == members && e.membersAfter == |members|
  {
    ExtendFresh([], members);
    assert [] + members == members;
  }

  /** From pass `start` on, one row a pass records the scene's memberships: its creation,
      then each change. */
  ghost predicate Records(passes: seq<PassLog>, sceneId: string, start: nat, memberships: seq<seq<string>>) {
    && |memberships| > 0 && start + |memberships| <= |passes|
    && (forall k :: 0 <= k < |memberships| ==> Distinct(memberships[k]))
    && RowFor(passes[start], sceneId) == Some(NoteCreation(sceneId, memberships[0]))
    && (forall k :: 1 <= k < |memberships| ==> RecordsChange(passes[start + k], sceneId, memberships[k - 1], memberships[k]))
  }

  ghost predicate RecordsChange(pass: PassLog, sceneId: string, before: seq<string>, after: seq<string>) {
    exists effect :: RowFor(pass, sceneId) == Some(NoteChange(sceneId, effect, before, after))
  }

  lemma {:induction false} ReplayFollows(passes: seq<PassLog>, sceneId: string, start: nat,
                                         memberships: seq<seq<string>>, n: nat)
    requires Records(passes, sceneId, start, memberships) && 1 <= n <= |memberships|
    ensures var m := Replay(passes, sceneId, start, start + n);
            && m.quality == Complete
            && SameMembers(m.after, memberships[n - 1])
            && (if n == 1 then m.before == [] else SameMembers(m.before, memberships[n - 2]))
  {
    if n == 1 {
      assert Replay(passes, sceneId, start, start) == Membership(Complete, [], []);
      ReplayCreation(sceneId, memberships[0]);
    } else {
      ReplayFollows(passes, sceneId, start, memberships, n - 1);
      assert RecordsChange(passes[start + (n - 1)], sceneId, memberships[n - 2], memberships[n - 1]);
      var effect :| RowFor(passes[start + n - 1], sceneId) == Some(NoteChange(sceneId, effect, memberships[n - 2], memberships[n - 1]));
      ReplayChange(sceneId, effect, memberships[n - 2], memberships[n - 1], Replay(passes, sceneId, start, start + n - 1).after);
    }
  }

  lemma {:induction false} BaselineIs(passes: seq<PassLog>, sceneId: string, k: nat, stop: nat, start: nat)
    requires k <= start < stop <= |passes|
    requires forall p :: k <= p < start ==> !HasBaseline(passes[p], sceneId)
    requires HasBaseline(passes[start], sceneId)
    ensures BaselinePass(passes, sceneId, k, stop) == start
    decreases start - k
  {
    if k < start { BaselineIs(passes, sceneId, k + 1, stop, start); }
  }

  lemma {:induction false} RowIsAmong(rows: seq<SceneEffect>, sceneId: string)
    requires RowAmong(rows, sceneId).Some?
    ensures RowAmong(rows, sceneId).value in rows
  {
    if rows[|rows| - 1].sceneId != sceneId { RowIsAmong(rows[..|rows| - 1], sceneId); }
  }

  lemma CreationIsBaseline(passes: seq<PassLog>, sceneId: string, start: nat, memberships: seq<seq<string>>)
    requires Records(passes, sceneId, start, memberships)
    ensures HasBaseline(passes[start], sceneId)
  {
    RowIsAmong(passes[start].scenes, sceneId);
    assert IsBaseline(NoteCreation(sceneId, memberships[0]), sceneId);
  }

  /** The reader starts at the scene's creation. */
  lemma ReplayStartsAtCreation(passes: seq<PassLog>, sceneId: string, start: nat, memberships: seq<seq<string>>,
                               selected: nat)
    requires Records(passes, sceneId, start, memberships)
    requires forall p :: 0 <= p < start ==> !HasBaseline(passes[p], sceneId)
    requires start <= selected < |passes|
    ensures BaselinePass(passes, sceneId, 0, selected + 1) == start
  {
    CreationIsBaseline(passes, sceneId, start, memberships);
    BaselineIs(passes, sceneId, 0, selected + 1, start);
  }

  lemma ReplayShows(passes: seq<PassLog>, sceneId: string, start: nat, memberships: seq<seq<string>>, selected: nat,
                    m: Membership)
    requires Records(passes, sceneId, start, memberships) && start <= selected < start + |memberships|
    requires m == Replay(passes, sceneId, start, selected + 1)
    ensures m.quality == Complete && SameMembers(m.after, memberships[selected - start])
    ensures if selected == start then m.before == [] else SameMembers(m.before, memberships[selected - start - 1])
  {
    ReplayFollows(passes, sceneId, start, memberships, selected - start + 1);
  }

  /** Round trip: however often the scene changed, the reader shows exactly its membership
      after the selected pass and before it, and calls the answer complete. */
  lemma ReplayRoundTrip(passes: seq<PassLog>, sceneId: string, start: nat, memberships: seq<seq<string>>,
                        selected: nat, m: Membership)
    requires Records(passes, sceneId, start, memberships)
    requires forall p :: 0 <= p < start ==> !HasBaseline(passes[p], sceneId)
    requires start <= selected < start + |memberships|
    requires m == Reconstructed(passes, selected, sceneId)
    ensures m.quality == Complete
    ensures SameMembers(m.after, memberships[selected - start])
    ensures if selected == start then m.before == [] else SameMembers(m.before, memberships[selected - start - 1])
  {
    ReplayStartsAtCreation(passes, sceneId, start, memberships, selected);
    ReplayShows(passes, sceneId, start, memberships, selected, m);
  }

  /** The answer is complete exactly when every pass since the baseline has a row and each
      row agrees with the membership replayed so far. */
  lemma {:induction false} CompleteExactly(passes: seq<PassLog>, sceneId: string, start: nat, stop: nat)
    requires start <= stop <= |passes|
    ensures Replay(passes, sceneId, start, stop).quality == Complete
            <==> forall p :: start <= p < stop ==> Consistent(passes, sceneId, start, p)
    ensures Replay(passes, sceneId, start, stop).quality != Unavailable
    decreases stop - start
  {
    if start < stop {
      CompleteExactly(passes, sceneId, start, stop - 1);
      assert Replay(passes, sceneId, start, stop).quality == Complete
        <==> Replay(passes, sceneId, start, stop - 1).quality == Complete && Consistent(passes, sceneId, start, stop - 1);
    }
  }

  predicate Consistent(passes: seq<PassLog>, sceneId: string, start: nat, p: nat)
    requires start <= p < |passes|
  {
    var replayed := Replay(passes, sceneId, start, p).after;
    match RowFor(passes[p], sceneId)
    case None => false
    case Some(e) => Agrees(e, replayed) && e.membersAfter == |ApplyDelta(e, replayed)|
  }

  /** A pass without a row, up to the selected one, always shows as partial. */
  lemma MissingRowIsPartial(passes: seq<PassLog>, sceneId: string, start: nat, stop: nat, gap: nat)
    requires start <= gap < stop <= |passes| && RowFor(passes[gap], sceneId) == None
    ensures Replay(passes, sceneId, start, stop).quality == Partial
  {
    CompleteExactly(passes, sceneId, start, stop);
    assert !Consistent(passes, sceneId, start, gap);
  }

  // ----- Why one row must be kept for each pass

  lemma {:induction false} MinusCovered(s: seq<string>, b: seq<string>)
    requires forall x <- s :: x in b
    ensures Minus(s, b) == []
  {
    if s != [] { MinusCovered(s[1..], b); }
  }

  lemma {:induction false} MinusSplit(s: seq<string>, t: seq<string>, b: seq<string>)
    ensures Minus(s + t, b) == Minus(s, b) + Minus(t, b)
  {
    if s == [] {
      assert s + t == t;
    } else {
      assert (s + t)[1..] == s[1..] + t;
      MinusSplit(s[1..], t, b);
    }
  }

  /** The second of two rows written under one id records only the later step. */
  lemma RowOfGrowth(sceneId: string, members: seq<string>, joined: string)
    requires joined !in members
    ensures var row := NoteChange(sceneId, Updated, members, members + [joined]);
            row.added == [joined] && row.removed == []
  {
    MinusSplit(members, [joined], members);
    MinusCovered(members, members);
    MinusCovered(members, members + [joined]);
    assert Minus([joined], members) == [joined];
  }

  lemma {:induction false} MinusNothing(s: seq<string>)
    ensures Minus(s, []) == s
  {
    if s != [] {
      MinusNothing(s[1..]);
      assert s == [s[0]] + s[1..];
    }
  }

  /** Passes that share an id overwrite each other's row. A scene {a, c} that became {a, d}
      and then {a, d, e} under one id is shown as {a, c, e}, and called complete. */
  lemma OverwrittenRowMisleads(sceneId: string, a: string, c: string, d: string, e: string)
    requires a != c && a != d && a != e && c != d && c != e && d != e
    ensures var passes := [PassLog([NoteCreation(sceneId, [a, c])]), PassLog([NoteChange(sceneId, Updated, [a, d], [a, d, e])])];
            Replay(passes, sceneId, 0, 2) == Membership(Complete, [a, c], [a, c, e])
  {
    var row := NoteChange(sceneId, Updated, [a, d], [a, d, e]);
    var passes := [PassLog([NoteCreation(sceneId, [a, c])]), PassLog([row])];
    ReplayCreation(sceneId, [a, c]);
    assert Replay(passes, sceneId, 0, 0) == Membership(Complete, [], []);
    assert Replay(passes, sceneId, 0, 1) == Membership(Complete, [], [a, c]);
    RowOfGrowth(sceneId, [a, d], e);
    assert [a, d] + [e] == [a, d, e];
    MinusNothing([a, c]);
    ExtendFresh([a, c], [e]);
    assert [a, c] + [e] == [a, c, e];
  }

  lemma {:induction false} ExtendHolds(members: seq<string>, added: seq<string>)
    ensures forall x :: x in Extend(members, added) <==> x in members || x in added
    decreases |added|
  {
    if added != [] {
      assert added == [added[0]] + added[1..];
      ExtendHolds(if added[0] in members then members else members + [added[0]], added[1..]);
    }
  }

  /** What a retained row turns `members` into, as a set. */
  lemma DeltaHolds(e: SceneEffect, members: seq<string>)
    ensures forall x :: x in ApplyDelta(e, members) <==> (x in members && x !in e.removed) || x in e.added
  {
    ExtendHolds(Minus(members, e.removed), e.added);
  }

  lemma SubsetSameCount(a: seq<string>, b: seq<string>)
    requires Distinct(a) && Distinct(b) && |a| == |b| && forall x <- a :: x in b
    ensures SameMembers(a, b)
  {
    SizeOfDistinct(a);
    SizeOfDistinct(b);
    var small, large := set x | x in a, set x | x in b;
    assert small <= large;
    forall x | x in b ensures x in a {
      if x !in a {
        assert small <= large - {x};
        SubsetSize(small, large - {x});
        assert false;
      }
    }
  }

  lemma {:induction false} SubsetSize(a: set<string>, b: set<string>)
    requires a <= b
    ensures |a| <= |b|
  {
    if a != {} {
      var x :| x in a;
      SubsetSize(a - {x}, b - {x});
    }
  }

  lemma CountWithout(a: seq<string>, b: seq<string>)
    requires Distinct(a) && Distinct(b) && forall x <- b :: x in a
    ensures |Minus(a, b)| == |a| - |b|
  {
    MinusDistinct(a, b);
    SizeOfDistinct(a);
    SizeOfDistinct(b);
    SizeOfDistinct(Minus(a, b));
    assert (set x | x in Minus(a, b)) == (set x | x in a) - (set x | x in b);
    assert (set x | x in b) <= (set x | x in a);
  }

  /** A row that fits a listing of the right length leaves the length it states. */
  lemma CountAfterRow(mid: seq<string>, after: seq<string>, members: seq<string>, row: SceneEffect)
    requires Distinct(mid) && Distinct(after) && Distinct(members)
    requires row.removed == Minus(mid, after) && row.added == Minus(after, mid) && row.membersBefore == |mid|
    requires Agrees(row, members)
    ensures |ApplyDelta(row, members)| == |after|
  {
    MinusDistinct(mid, after);
    MinusDistinct(after, mid);
    MinusDistinct(members, row.removed);
    CountWithout(members, row.removed);
    CountWithout(mid, row.removed);
    CountWithout(after, row.added);
    ExtendFresh(Minus(members, row.removed), row.added);
    var kept, stayed := Minus(mid, row.removed), Minus(after, row.added);
    MinusDistinct(mid, row.removed);
    MinusDistinct(after, row.added);
    SameMembersSameCount(kept, stayed);
  }

  /** A pass moved a scene from `before` to `mid`; a second one under the same id moved it on to
      `after` and its row is the one kept. If that row fits the replayed membership the answer
      goes on being called complete, and it is right exactly when the overwritten step had
      changed nothing. */
  lemma OverwrittenExactly(sceneId: string, effect: Effect, before: seq<string>, mid: seq<string>, after: seq<string>,
                           members: seq<string>, row: SceneEffect)
    requires SameMembers(members, before) && Distinct(mid) && Distinct(after)
    requires row == NoteChange(sceneId, effect, mid, after) && Agrees(row, members)
    ensures row.membersAfter == |ApplyDelta(row, members)|
    ensures SameMembers(ApplyDelta(row, members), after) <==> SameMembers(before, mid)
  {
    CountAfterRow(mid, after, members, row);
    DeltaHolds(row, members);
    if SameMembers(before, mid) {
      ReplayChange(sceneId, effect, mid, after, members);
    } else if SameMembers(ApplyDelta(row, members), after) {
      forall x <- members ensures x in mid {
        if x in row.removed {
          assert x in mid;
        } else {
          assert x in ApplyDelta(row, members) && x in after;
          assert x !in row.added;
        }
      }
      SubsetSameCount(members, mid);
      assert false;
    }
  }

  // ----- When a replay is right throughout

  /** The row names exactly what went and what came between two memberships, and their sizes. */
  ghost predicate States(e: SceneEffect, before: seq<string>, after: seq<string>) {
    && e.membersBefore == |before| && e.membersAfter == |after|
    && (forall x :: x in e.removed <==> x in before && x !in after)
    && (forall x :: x in e.added <==> x in after && x !in before)
  }

  /** The row fits the replayed membership and turns it into a listing of `after`. */
  ghost predicate ReplaysTo(e: SceneEffect, members: seq<string>, after: seq<string>) {
    Agrees(e, members) && e.membersAfter == |ApplyDelta(e, members)| && SameMembers(ApplyDelta(e, members), after)
  }

  /** From a right membership a row fits and leads to the right one exactly when it states the
      change between the two. */
  lemma StepRightExactly(e: SceneEffect, members: seq<string>, before: seq<string>, after: seq<string>)
    requires SameMembers(members, before) && Distinct(after) && Distinct(e.added)
    ensures ReplaysTo(e, members, after) <==> States(e, before, after)
  {
    SameMembersSameCount(members, before);
    DeltaHolds(e, members);
    if ReplaysTo(e, members, after) {
      SameMembersSameCount(ApplyDelta(e, members), after);
    }
    if States(e, before, after) {
      MinusDistinct(members, e.removed);
      ExtendFresh(Minus(members, e.removed), e.added);
      SameMembersSameCount(ApplyDelta(e, members), after);
    }
  }

  /** Pass `p` has a row that states what changed since the pass before it. `lefts` lists the
      membership each pass left behind. */
  ghost predicate StatesAt(passes: seq<PassLog>, sceneId: string, lefts: seq<seq<string>>, p: int) {
    && 0 < p < |passes| == |lefts|
    && RowFor(passes[p], sceneId).Some? && States(RowFor(passes[p], sceneId).value, lefts[p - 1], lefts[p])
  }

  /** The answer for pass `p` is complete and right. */
  ghost predicate RightAt(passes: seq<PassLog>, sceneId: string, start: nat, lefts: seq<seq<string>>, p: int) {
    && start <= p < |passes| == |lefts|
    && var m := Replay(passes, sceneId, start, p + 1); m.quality == Complete && SameMembers(m.after, lefts[p])
  }

  /** The membership left by pass `p`, and the additions in its row, repeat nothing. */
  ghost predicate ListingAt(passes: seq<PassLog>, sceneId: string, lefts: seq<seq<string>>, p: int) {
    && 0 <= p < |passes| == |lefts| && Distinct(lefts[p])
    && (RowFor(passes[p], sceneId).Some? ==> Distinct(RowFor(passes[p], sceneId).value.added))
  }

  ghost predicate Listings(passes: seq<PassLog>, sceneId: string, lefts: seq<seq<string>>, start: nat, stop: nat) {
    start < stop <= |passes| == |lefts| && forall p :: start <= p < stop ==> ListingAt(passes, sceneId, lefts, p)
  }

  lemma RightStep(passes: seq<PassLog>, sceneId: string, start: nat, lefts: seq<seq<string>>, p: nat)
    requires Listings(passes, sceneId, lefts, start, p + 1) && start < p && RightAt(passes, sceneId, start, lefts, p - 1)
    ensures RightAt(passes, sceneId, start, lefts, p) <==> StatesAt(passes, sceneId, lefts, p)
  {
    var m := Replay(passes, sceneId, start, p);
    assert ListingAt(passes, sceneId, lefts, p);
    if RowFor(passes[p], sceneId).Some? {
      StepRightExactly(RowFor(passes[p], sceneId).value, m.after, lefts[p - 1], lefts[p]);
    }
  }

  lemma {:induction false} RightUpTo(passes: seq<PassLog>, sceneId: string, start: nat, lefts: seq<seq<string>>, p: nat)
    requires Listings(passes, sceneId, lefts, start, p + 1) && RightAt(passes, sceneId, start, lefts, start) && start <= p
    requires forall q :: start < q <= p ==> StatesAt(passes, sceneId, lefts, q)
    ensures RightAt(passes, sceneId, start, lefts, p)
  {
    if p > start {
      RightUpTo(passes, sceneId, start, lefts, p - 1);
      RightStep(passes, sceneId, start, lefts, p);
    }
  }

  /** Once the first answer is right, all up to a pass are complete and right if and only if each
      of those passes has a row stating exactly what changed since the pass before it. */
  lemma RightExactly(passes: seq<PassLog>, sceneId: string, start: nat, lefts: seq<seq<string>>, stop: nat)
    requires Listings(passes, sceneId, lefts, start, stop) && RightAt(passes, sceneId, start, lefts, start)
    ensures (forall p :: start <= p < stop ==> RightAt(passes, sceneId, start, lefts, p))
            <==> (forall p :: start < p < stop ==> StatesAt(passes, sceneId, lefts, p))
  {
    if forall p :: start < p < stop ==> StatesAt(passes, sceneId, lefts, p) {
      forall p | start <= p < stop ensures RightAt(passes, sceneId, start, lefts, p) {
        RightUpTo(passes, sceneId, start, lefts, p);
      }
    }
    if forall p :: start <= p < stop ==> RightAt(passes, sceneId, start, lefts, p) {
      forall p | start < p < stop ensures StatesAt(passes, sceneId, lefts, p) {
        assert RightAt(passes, sceneId, start, lefts, p - 1);
        RightStep(passes, sceneId, start, lefts, p);
      }
    }
  }
}
