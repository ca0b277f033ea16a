/**
 The capture plugin's flush queue: text parts wait until their message settles, are sent
 once, and are put back when a send fails. A flush suspends while its send runs, so other
 events of any message fall between its two halves.
 */
module Capture {
  import opened Tables
  import opened TextOrder
  import Text

  datatype PendingText = PendingText(sessionId: string, text: seq<string>)

  datatype Message = Message(messageId: string, sessionId: string, role: string, text: string)

  /** A suspended flush: what it sends, and what it would put back. */
  datatype Flight = Flight(message: Message, entry: PendingText, priorRole: Option<string>)

  datatype Queue = Queue(pending: map<string, PendingText>, settledRole: map<string, string>, flushedIds: set<string>)

  function Deliverable(entry: PendingText): string {
    Text.Trim(Text.Join(entry.text, "\n"))
  }

  function Recorded(q: Queue, id: string, sessionId: string, text: string): Queue {
    var session := if id in q.pending then q.pending[id].sessionId else sessionId;
    q.(pending := q.pending[id := PendingText(session, [text])])
  }

  predicate CanFlush(q: Queue, id: string) {
    id in q.pending && id !in q.flushedIds && Deliverable(q.pending[id]) != ""
  }

  function FlightOf(q: Queue, id: string, role: string): Flight
    requires id in q.pending
  {
    var entry := q.pending[id];
    Flight(Message(id, entry.sessionId, role, Deliverable(entry)), entry, if id in q.settledRole then Some(q.settledRole[id]) else None)
  }

  function TakenOff(q: Queue, id: string): Queue {
    Queue(q.pending - {id}, q.settledRole - {id}, q.flushedIds + {id})
  }

  function PutBack(q: Queue, f: Flight): Queue {
    var id := f.message.messageId;
    Queue(q.pending[id := f.entry], if f.priorRole.Some? then q.settledRole[id := f.priorRole.value] else q.settledRole, q.flushedIds - {id})
  }

  class CaptureFlushQueue {
    var pending: map<string, PendingText>
    var settledRole: map<string, string>
    var flushedIds: set<string>

    ghost function View(): Queue
      reads this
    {
      Queue(pending, settledRole, flushedIds)
    }

    constructor ()
      ensures View() == Queue(map[], map[], {})
    {
      pending, settledRole, flushedIds := map[], map[], {};
    }

    method RecordPart(messageId: string, sessionId: string, text: string)
      modifies this
      ensures View() == Recorded(old(View()), messageId, sessionId, text)
    {
      var entry := if messageId in pending then pending[messageId] else PendingText(sessionId, []);
      entry := entry.(text := [text]);
      pending := pending[messageId := entry];
    }

    method GetSettledRole(messageId: string) returns (role: Option<string>)
      ensures role == if messageId in settledRole then Some(settledRole[messageId]) else None
    {
      role := if messageId in settledRole then Some(settledRole[messageId]) else None;
    }

    method SetSettledRole(messageId: string, role: string)
      modifies this
      ensures View() == old(View()).(settledRole := old(settledRole)[messageId := role])
    {
      settledRole := settledRole[messageId := role];
    }

    /** Tells exactly whether a flush would send something. */
    method HasDeliverableText(messageId: string) returns (b: bool)
      ensures b == CanFlush(View(), messageId)
    {
      if messageId in flushedIds { return false; }
      b := messageId in pending && |Deliverable(pending[messageId])| > 0;
    }

    /** The first half of `flush`, up to the awaited send. */
    method BeginFlush(messageId: string, role: string) returns (f: Option<Flight>)
      modifies this
      ensures if CanFlush(old(View()), messageId)
              then f == Some(FlightOf(old(View()), messageId, role)) && View() == TakenOff(old(View()), messageId)
              else f == None && View() == old(View())
    {
      if messageId !in pending || messageId in flushedIds { return None; }
      var entry := pending[messageId];
      var text := Deliverable(entry);
      if text == "" { return None; }
      var priorSettledRole := GetSettledRole(messageId);
      pending := pending - {messageId};
      settledRole := settledRole - {messageId};
      flushedIds := flushedIds + {messageId};
      return Some(Flight(Message(messageId, entry.sessionId, role, text), entry, priorSettledRole));
    }

    /** The second half of `flush` when the send threw. */
    method FlushFailed(f: Flight)
      modifies this
      ensures View() == PutBack(old(View()), f)
    {
      var id := f.message.messageId;
      flushedIds := flushedIds - {id};
      pending := pending[id := f.entry];
      if f.priorRole.Some? { settledRole := settledRole[id := f.priorRole.value]; }
    }
  }

  /** A failed flush with nothing in between leaves the queue as it was. */
  lemma FailedFlushUndone(q: Queue, id: string, role: string)
    requires CanFlush(q, id)
    ensures PutBack(TakenOff(q, id), FlightOf(q, id, role)) == q
  {
    var r := PutBack(TakenOff(q, id), FlightOf(q, id, role));
    assert r.pending == q.pending && r.settledRole == q.settledRole && r.flushedIds == q.flushedIds;
  }

  // ----- Runs

  /** The queue among its suspended flushes; `delivered` lists the sends that succeeded and
      `latest` the newest text recorded for each message. */
  datatype Sys = Sys(q: Queue, flights: seq<Flight>, delivered: seq<Message>, latest: map<string, string>)

  datatype Event =
    | RecordText(id: string, sessionId: string, text: string)
    | Settle(id: string, role: string)
    | Flush(id: string, role: string)
    | SendDone(flight: nat)
    | SendFailed(flight: nat)

  const START := Sys(Queue(map[], map[], {}), [], [], map[])

  predicate Possible(s: Sys, e: Event) {
    match e
    case SendDone(k) => k < |s.flights|
    case SendFailed(k) => k < |s.flights|
    case _ => true
  }

  function Next(s: Sys, e: Event): Sys
    requires Possible(s, e)
  {
    match e
    case RecordText(id, sessionId, text) => s.(q := Recorded(s.q, id, sessionId, text), latest := s.latest[id := text])
    case Settle(id, role) => s.(q := s.q.(settledRole := s.q.settledRole[id := role]))
    case Flush(id, role) =>
      if CanFlush(s.q, id) then s.(q := TakenOff(s.q, id), flights := s.flights + [FlightOf(s.q, id, role)]) else s
    case SendDone(k) => s.(flights := Without(s.flights, k), delivered := s.delivered + [s.flights[k].message])
    case SendFailed(k) => s.(q := PutBack(s.q, s.flights[k]), flights := Without(s.flights, k))
  }

  function Without<T>(s: seq<T>, k: nat): (r: seq<T>)
    requires k < |s|
  {
    s[..k] + s[k + 1..]
  }

  ghost predicate Reachable(trace: seq<Sys>, events: seq<Event>) {
    && |trace| == |events| + 1 && trace[0] == START
    && forall i :: 0 <= i < |events| ==> Possible(trace[i], events[i]) && trace[i + 1] == Next(trace[i], events[i])
  }

  function FlightIds(s: Sys): (r: seq<string>)
    ensures |r| == |s.flights|
  {
    seq(|s.flights|, i requires 0 <= i < |s.flights| => s.flights[i].message.messageId)
  }

  function DeliveredIds(s: Sys): (r: seq<string>)
    ensures |r| == |s.delivered|
  {
    seq(|s.delivered|, i requires 0 <= i < |s.delivered| => s.delivered[i].messageId)
  }

  ghost predicate SendsApart(s: Sys) {
    Distinct(FlightIds(s))
  }

  ghost predicate DeliveredOnce(s: Sys) {
    Distinct(DeliveredIds(s))
  }

  /** Marked as flushed: exactly the messages being sent and those delivered, which differ. */
  ghost predicate FlushedMarks(s: Sys) {
    && (forall id :: id in s.q.flushedIds <==> id in FlightIds(s) || id in DeliveredIds(s))
    && (forall id <- FlightIds(s) :: id !in DeliveredIds(s))
  }

  ghost predicate Accounted(s: Sys) {
    forall id :: id in s.latest <==> id in s.q.pending || id in FlightIds(s) || id in DeliveredIds(s)
  }

  ghost predicate Inv(s: Sys) {
    SendsApart(s) && DeliveredOnce(s) && FlushedMarks(s) && Accounted(s)
  }

  lemma {:induction false} WithoutSplits(s: seq<string>, k: nat)
    requires Distinct(s) && k < |s|
    ensures Distinct(Without(s, k))
    ensures forall x :: x in s <==> x in Without(s, k) || x == s[k]
    ensures s[k] !in Without(s, k)
  {
    assert s == s[..k] + [s[k]] + s[k + 1..];
  }

  lemma FlightLeaves(s: Sys, t: Sys, k: nat)
    requires SendsApart(s) && k < |s.flights| && t.flights == Without(s.flights, k)
    ensures FlightIds(t) == Without(FlightIds(s), k) && SendsApart(t)
    ensures forall x :: x in FlightIds(s) <==> x in FlightIds(t) || x == FlightIds(s)[k]
    ensures FlightIds(s)[k] !in FlightIds(t)
  {
    assert FlightIds(t) == Without(FlightIds(s), k);
    WithoutSplits(FlightIds(s), k);
  }

  lemma DistinctAppend(s: seq<string>, x: string)
    requires Distinct(s) && x !in s
    ensures Distinct(s + [x])
  {
  }

  lemma FlushKeeps(s: Sys, id: string, role: string)
    requires Inv(s)
    ensures Inv(Next(s, Flush(id, role)))
  {
    if CanFlush(s.q, id) {
      var t := Next(s, Flush(id, role));
      assert FlightIds(t) == FlightIds(s) + [id];
      DistinctAppend(FlightIds(s), id);
      assert DeliveredIds(t) == DeliveredIds(s);
    }
  }

  lemma DoneKeeps(s: Sys, k: nat)
    requires Inv(s) && k < |s.flights|
    ensures Inv(Next(s, SendDone(k)))
  {
    var t := Next(s, SendDone(k));
    FlightLeaves(s, t, k);
    var id := FlightIds(s)[k];
    assert id in FlightIds(s);
    assert DeliveredIds(t) == DeliveredIds(s) + [id];
    DistinctAppend(DeliveredIds(s), id);
  }

  lemma FailKeeps(s: Sys, k: nat)
    requires Inv(s) && k < |s.flights|
    ensures Inv(Next(s, SendFailed(k)))
  {
    var t := Next(s, SendFailed(k));
    FlightLeaves(s, t, k);
    assert FlightIds(s)[k] in FlightIds(s);
    assert DeliveredIds(t) == DeliveredIds(s);
  }

  lemma NextKeeps(s: Sys, e: Event)
    requires Inv(s) && Possible(s, e)
    ensures Inv(Next(s, e))
  {
    match e
    case RecordText(_, _, _) =>
      assert FlightIds(Next(s, e)) == FlightIds(s) && DeliveredIds(Next(s, e)) == DeliveredIds(s);
    case Settle(_, _) =>
      assert FlightIds(Next(s, e)) == FlightIds(s) && DeliveredIds(Next(s, e)) == DeliveredIds(s);
    case Flush(id, role) => FlushKeeps(s, id, role);
    case SendDone(k) => DoneKeeps(s, k);
    case SendFailed(k) => FailKeeps(s, k);
  }

  /** However flushes, sends and new parts interleave: no two sends of one message overlap,
      no message is delivered twice, and every recorded message is pending, being sent or
      delivered. */
  lemma {:induction false} CaptureIsSafe(trace: seq<Sys>, events: seq<Event>, i: nat)
    requires Reachable(trace, events) && i < |trace|
    ensures SendsApart(trace[i]) && DeliveredOnce(trace[i]) && FlushedMarks(trace[i]) && Accounted(trace[i])
  {
    if i > 0 {
      CaptureIsSafe(trace, events, i - 1);
      NextKeeps(trace[i - 1], events[i - 1]);
    }
  }

  // ----- Which text survives

  predicate Carries(f: Flight, id: string, text: string) {
    f.message.messageId == id && f.entry.text == [text]
  }

  ghost predicate BeingSent(s: Sys, id: string, text: string) {
    exists f <- s.flights :: Carries(f, id, text)
  }

  /** Until a message is delivered, the queue holds its newest text: the waiting one if there
      is one, else the one being sent. */
  ghost predicate HoldsNewest(s: Sys, id: string) {
    id in s.latest && id !in DeliveredIds(s) ==>
      if id in s.q.pending then s.q.pending[id].text == [s.latest[id]] else BeingSent(s, id, s.latest[id])
  }

  /** The send of message `id` fails while a different, newer text of it is waiting. */
  predicate Overwrites(s: Sys, e: Event, id: string)
    requires Possible(s, e)
  {
    e.SendFailed? && s.flights[e.flight].message.messageId == id && id in s.q.pending
    && s.q.pending[id].text != s.flights[e.flight].entry.text
  }

  lemma OneFlightEach(s: Sys, f: Flight, g: Flight)
    requires SendsApart(s) && f in s.flights && g in s.flights && f.message.messageId == g.message.messageId
    ensures f == g
  {
    var i :| 0 <= i < |s.flights| && s.flights[i] == f;
    var j :| 0 <= j < |s.flights| && s.flights[j] == g;
    assert FlightIds(s)[i] == FlightIds(s)[j];
  }

  lemma StillBeingSent(s: Sys, t: Sys, k: nat, id: string, text: string)
    requires k < |s.flights| && t.flights == Without(s.flights, k) && s.flights[k].message.messageId != id
    requires BeingSent(s, id, text)
    ensures BeingSent(t, id, text)
  {
    var f :| f in s.flights && Carries(f, id, text);
    assert s.flights == s.flights[..k] + [s.flights[k]] + s.flights[k + 1..];
    assert f in t.flights;
  }

  lemma FailKeepsNewestExactly(s: Sys, k: nat, id: string)
    requires Inv(s) && k < |s.flights| && HoldsNewest(s, id)
    ensures HoldsNewest(Next(s, SendFailed(k)), id) <==> !Overwrites(s, SendFailed(k), id)
  {
    var t := Next(s, SendFailed(k));
    var f := s.flights[k];
    assert DeliveredIds(t) == DeliveredIds(s);
    if f.message.messageId == id {
      assert FlightIds(s)[k] == id && id in FlightIds(s);
      if id !in s.q.pending {
        var g :| g in s.flights && Carries(g, id, s.latest[id]);
        OneFlightEach(s, f, g);
      }
    } else if id in s.latest && id !in DeliveredIds(s) && id !in s.q.pending {
      StillBeingSent(s, t, k, id, s.latest[id]);
    }
  }

  lemma DoneKeepsNewest(s: Sys, k: nat, id: string)
    requires Inv(s) && k < |s.flights| && HoldsNewest(s, id)
    ensures HoldsNewest(Next(s, SendDone(k)), id)
  {
    var t := Next(s, SendDone(k));
    assert DeliveredIds(t) == DeliveredIds(s) + [s.flights[k].message.messageId];
    if s.flights[k].message.messageId != id && id in s.latest && id !in DeliveredIds(s) && id !in s.q.pending {
      StillBeingSent(s, t, k, id, s.latest[id]);
    }
  }

  lemma FlushKeepsNewest(s: Sys, other: string, role: string, id: string)
    requires Inv(s) && HoldsNewest(s, id)
    ensures HoldsNewest(Next(s, Flush(other, role)), id)
  {
    var t := Next(s, Flush(other, role));
    assert DeliveredIds(t) == DeliveredIds(s);
    if CanFlush(s.q, other) && id in s.latest && id !in DeliveredIds(s) {
      if id == other {
        var f := FlightOf(s.q, id, role);
        assert f in t.flights && Carries(f, id, s.latest[id]);
      } else if id !in s.q.pending {
        var f :| f in s.flights && Carries(f, id, s.latest[id]);
        assert f in t.flights;
      }
    }
  }

  /** One step loses the newest text of an undelivered message exactly when it is a failing
      send of that message overwriting a different waiting text. */
  lemma NewestLostExactly(s: Sys, e: Event, id: string)
    requires Inv(s) && Possible(s, e) && HoldsNewest(s, id)
    ensures HoldsNewest(Next(s, e), id) <==> !Overwrites(s, e, id)
  {
    match e
    case RecordText(_, _, _) => assert DeliveredIds(Next(s, e)) == DeliveredIds(s);
    case Settle(_, _) => assert DeliveredIds(Next(s, e)) == DeliveredIds(s);
    case Flush(other, role) => FlushKeepsNewest(s, other, role, id);
    case SendDone(k) => DoneKeepsNewest(s, k, id);
    case SendFailed(k) => FailKeepsNewestExactly(s, k, id);
  }

  /** A run in which no failing send of a message overwrites a waiting text holds the
      newest text of that message until it is delivered. */
  lemma {:induction false} NewestSurvives(trace: seq<Sys>, events: seq<Event>, id: string, i: nat)
    requires Reachable(trace, events) && i < |trace|
    requires forall j :: 0 <= j < i ==> !Overwrites(trace[j], events[j], id)
    ensures HoldsNewest(trace[i], id)
  {
    if i > 0 {
      NewestSurvives(trace, events, id, i - 1);
      CaptureIsSafe(trace, events, i - 1);
      NewestLostExactly(trace[i - 1], events[i - 1], id);
    }
  }

  /** Such a loss does happen: text "b" arrives while "a" is being sent, and the send fails. */
  lemma NewestTextCanBeLost(id: string, sessionId: string, role: string)
    ensures var s1 := Next(START, RecordText(id, sessionId, "a"));
            var s2 := Next(s1, Flush(id, role));
            var s3 := Next(s2, RecordText(id, sessionId, "b"));
            && Possible(s3, SendFailed(0))
            && var s4 := Next(s3, SendFailed(0));
            s4.latest[id] == "b" && s4.q.pending == map[id := PendingText(sessionId, ["a"])] && s4.flights == [] && s4.delivered == []
  {
    var s1 := Next(START, RecordText(id, sessionId, "a"));
    assert Text.Join(["a"], "\n") == "a" && Text.TrimStart("a") == "a" && Text.TrimEnd("a") == "a";
    var s2 := Next(s1, Flush(id, role));
    assert s2.flights == [FlightOf(s1.q, id, role)];
  }

  // ----- Which text is delivered

  /** The text as a send delivers it. */
  function AsSent(text: string): string { Deliverable(PendingText("", [text])) }

  /** What was delivered for the message is its newest text. */
  ghost predicate NewestDelivered(s: Sys, id: string) {
    id in s.latest && exists m <- s.delivered :: m.messageId == id && m.text == AsSent(s.latest[id])
  }

  /** This text of the message is being sent, or was delivered. */
  ghost predicate SentAs(s: Sys, id: string, text: string) {
    || (exists f <- s.flights :: f.message.messageId == id && f.message.text == text)
    || (exists m <- s.delivered :: m.messageId == id && m.text == text)
  }

  lemma FlightMoves(s: Sys, k: nat, f: Flight)
    requires k < |s.flights| && f in s.flights
    ensures f == s.flights[k] || f in Without(s.flights, k)
  {
    assert s.flights == s.flights[..k] + [s.flights[k]] + s.flights[k + 1..];
  }

  /** A step that leaves the message marked as flushed does not change what is sent for it. */
  lemma SentAsStays(s: Sys, e: Event, id: string, text: string)
    requires Inv(s) && Possible(s, e) && SentAs(s, id, text) && id in Next(s, e).q.flushedIds
    ensures SentAs(Next(s, e), id, text)
  {
    var t := Next(s, e);
    if f :| f in s.flights && f.message.messageId == id && f.message.text == text {
      match e
      case SendDone(k) =>
        FlightMoves(s, k, f);
        if f == s.flights[k] { assert f.message in t.delivered; }
      case SendFailed(k) => FlightMoves(s, k, f);
      case Flush(_, _) => assert s.flights <= t.flights;
      case _ =>
    } else {
      var m :| m in s.delivered && m.messageId == id && m.text == text;
      assert m in t.delivered;
    }
  }

  lemma {:induction false} SentAsThrough(trace: seq<Sys>, events: seq<Event>, id: string, text: string, from: nat, i: nat)
    requires Reachable(trace, events) && from <= i < |trace| && SentAs(trace[from], id, text)
    requires forall j :: from <= j <= i ==> id in trace[j].q.flushedIds
    ensures SentAs(trace[i], id, text)
    decreases i
  {
    if from < i {
      SentAsThrough(trace, events, id, text, from, i - 1);
      SentAsNext(trace, events, i, id, text);
    }
  }

  lemma SentAsNext(trace: seq<Sys>, events: seq<Event>, i: nat, id: string, text: string)
    requires Reachable(trace, events) && 0 < i < |trace| && SentAs(trace[i - 1], id, text) && id in trace[i].q.flushedIds
    ensures SentAs(trace[i], id, text)
  {
    CaptureIsSafe(trace, events, i - 1);
    var s, e := trace[i - 1], events[i - 1];
    SentAsStays(s, e, id, text);
  }

  lemma OneDelivery(s: Sys, id: string, text: string)
    requires Inv(s) && id in s.latest && id in DeliveredIds(s) && SentAs(s, id, text)
    ensures NewestDelivered(s, id) <==> AsSent(s.latest[id]) == text
  {
    assert forall f <- s.flights :: f.message.messageId != id by {
      forall f <- s.flights ensures f.message.messageId != id {
        var k :| 0 <= k < |s.flights| && s.flights[k] == f;
        assert FlightIds(s)[k] in FlightIds(s);
      }
    }
    var m :| m in s.delivered && m.messageId == id && m.text == text;
    forall n <- s.delivered | n.messageId == id ensures n == m {
      var i :| 0 <= i < |s.delivered| && s.delivered[i] == m;
      var j :| 0 <= j < |s.delivered| && s.delivered[j] == n;
      assert DeliveredIds(s)[i] == DeliveredIds(s)[j];
    }
  }

  lemma FlushSendsNewest(s: Sys, id: string, role: string)
    requires Inv(s) && HoldsNewest(s, id) && CanFlush(s.q, id)
    ensures id in s.latest && SentAs(Next(s, Flush(id, role)), id, AsSent(s.latest[id]))
  {
    var t := Next(s, Flush(id, role));
    var f := FlightOf(s.q, id, role);
    assert f in t.flights && f.message.text == AsSent(s.latest[id]);
  }

  /** A flush that is not undone delivers the text that was newest when it began. Without an
      overwriting failure, what was delivered is the newest text if and only if that one, as
      sent, still is: so it is when no part was recorded between the flush's two halves or later. */
  lemma DeliveredNewestExactly(trace: seq<Sys>, events: seq<Event>, id: string, role: string, start: nat, i: nat)
    requires Reachable(trace, events) && start < i < |trace|
    requires forall j :: 0 <= j < start ==> !Overwrites(trace[j], events[j], id)
    requires events[start] == Flush(id, role) && CanFlush(trace[start].q, id)
    requires (forall j :: start < j <= i ==> id in trace[j].q.flushedIds) && id in DeliveredIds(trace[i])
    ensures id in trace[start].latest && id in trace[i].latest
    ensures NewestDelivered(trace[i], id) <==> AsSent(trace[i].latest[id]) == AsSent(trace[start].latest[id])
    ensures (forall j :: start < j < i ==> !(events[j].RecordText? && events[j].id == id)) ==> NewestDelivered(trace[i], id)
  {
    CaptureIsSafe(trace, events, start);
    CaptureIsSafe(trace, events, i);
    NewestSurvives(trace, events, id, start);
    FlushSendsNewest(trace[start], id, role);
    var text := AsSent(trace[start].latest[id]);
    assert trace[start + 1] == Next(trace[start], events[start]);
    SentAsThrough(trace, events, id, text, start + 1, i);
    OneDelivery(trace[i], id, text);
    if forall j :: start < j < i ==> !(events[j].RecordText? && events[j].id == id) { LatestStays(trace, events, id, start, i); }
  }

  lemma {:induction false} LatestStays(trace: seq<Sys>, events: seq<Event>, id: string, start: nat, i: nat)
    requires Reachable(trace, events) && start <= i < |trace| && id in trace[start].latest
    requires forall j :: start <= j < i ==> !(events[j].RecordText? && events[j].id == id)
    ensures id in trace[i].latest && trace[i].latest[id] == trace[start].latest[id]
    decreases i
  {
    if start < i { LatestStays(trace, events, id, start, i - 1); }
  }

  /** A delivered message is never sent again, whatever is recorded for it. */
  lemma {:induction false} DeliveredStays(trace: seq<Sys>, events: seq<Event>, id: string, start: nat, i: nat)
    requires Reachable(trace, events) && start <= i < |trace| && id in DeliveredIds(trace[start])
    ensures id in DeliveredIds(trace[i]) && !CanFlush(trace[i].q, id)
    decreases i
  {
    CaptureIsSafe(trace, events, i);
    if start < i {
      DeliveredStays(trace, events, id, start, i - 1);
      DeliveredGrows(trace[i - 1], events[i - 1], id);
    }
  }

  lemma DeliveredGrows(s: Sys, e: Event, id: string)
    requires Possible(s, e) && id in DeliveredIds(s)
    ensures id in DeliveredIds(Next(s, e))
  {
    var k :| 0 <= k < |s.delivered| && DeliveredIds(s)[k] == id;
    assert DeliveredIds(Next(s, e))[k] == id;
  }

  /** So a part recorded while a send is under way is stranded when the send succeeds. */
  lemma LateTextIsStranded(id: string, sessionId: string, role: string)
    ensures var s1 := Next(START, RecordText(id, sessionId, "a"));
            var s2 := Next(s1, Flush(id, role));
            var s3 := Next(s2, RecordText(id, sessionId, "b"));
            && Possible(s3, SendDone(0))
            && var s4 := Next(s3, SendDone(0));
            && s4.q.pending == map[id := PendingText(sessionId, ["b"])] && !CanFlush(s4.q, id)
            && Next(s4, Flush(id, role)) == s4 && |s4.delivered| == 1 && s4.delivered[0].text == "a"
  {
    var s1 := Next(START, RecordText(id, sessionId, "a"));
    assert Text.Join(["a"], "\n") == "a" && Text.TrimStart("a") == "a" && Text.TrimEnd("a") == "a";
    var s2 := Next(s1, Flush(id, role));
    assert s2.flights == [FlightOf(s1.q, id, role)];
  }

  // ----- What is sent, and for whom

  /** `text` without the white space around it. */
  ghost predicate TrimOf(text: string, cut: string) {
    Text.Trimmed(cut) && exists front, back :: text == front + cut + back && Text.AllSpace(front) && Text.AllSpace(back)
  }

  /** A flush of a message with one waiting text that is not blank sends that text, trimmed, with
      the session it waits under and the role of this call; any other flush does nothing. */
  lemma FlushSends(s: Sys, id: string, role: string, text: string)
    requires id in s.q.pending && s.q.pending[id].text == [text]
    ensures var d := Next(s, Flush(id, role));
            if id in s.q.flushedIds || Text.AllSpace(text) then d == s
            else
              && |d.flights| == |s.flights| + 1 && d.flights[..|s.flights|] == s.flights
              && var m := d.flights[|s.flights|].message;
                 m.messageId == id && m.sessionId == s.q.pending[id].sessionId && m.role == role && m.text != "" && TrimOf(text, m.text)
  {
    var front, back := Text.TrimExactly(text);
    var cut := Text.Trim(text);
    assert TrimOf(text, cut);
    if cut == "" {
      assert text == front + back;
    } else {
      assert text[|front|] == cut[0];
    }
  }

  /** Everything said of message `id` while it is undelivered, or in its delivery, is under this session. */
  ghost predicate UnderSession(s: Sys, id: string, sessionId: string) {
    && id in s.latest
    && (forall f <- s.flights :: f.message.messageId == id ==> f.message.sessionId == sessionId && f.entry.sessionId == sessionId)
    && (forall m <- s.delivered :: m.messageId == id ==> m.sessionId == sessionId)
    && (id in s.q.pending && id !in s.q.flushedIds ==> s.q.pending[id].sessionId == sessionId)
  }

  lemma FlightIsMarked(s: Sys, f: Flight)
    requires Inv(s) && f in s.flights
    ensures f.message.messageId in s.q.flushedIds
  {
    var i :| 0 <= i < |s.flights| && s.flights[i] == f;
    assert FlightIds(s)[i] == f.message.messageId;
  }

  lemma DeliveryIsMarked(s: Sys, m: Message)
    requires Inv(s) && m in s.delivered
    ensures m.messageId in s.q.flushedIds
  {
    var i :| 0 <= i < |s.delivered| && s.delivered[i] == m;
    assert DeliveredIds(s)[i] == m.messageId;
  }

  lemma SessionStays(s: Sys, e: Event, id: string, sessionId: string)
    requires Inv(s) && Possible(s, e) && UnderSession(s, id, sessionId)
    ensures UnderSession(Next(s, e), id, sessionId)
  {
    match e
    case Flush(other, role) =>
    case SendDone(k) => assert s.flights[k] in s.flights;
    case SendFailed(k) => assert s.flights[k] in s.flights;
    case Settle(_, _) =>
    case RecordText(_, _, _) =>
  }

  lemma FirstRecording(s: Sys, id: string, sessionId: string, text: string)
    requires Inv(s) && id !in s.latest
    ensures UnderSession(Next(s, RecordText(id, sessionId, text)), id, sessionId)
  {
    forall f <- s.flights ensures f.message.messageId != id { FlightIsMarked(s, f); }
    forall m <- s.delivered ensures m.messageId != id { DeliveryIsMarked(s, m); }
  }

  /** Over every run, a message is sent and delivered under the session of its first part, whatever
      sessions later parts name and however often its sends fail. */
  lemma {:induction false} FirstSessionStays(trace: seq<Sys>, events: seq<Event>, k: nat, j: nat, id: string, sessionId: string,
                                             text: string)
    requires Reachable(trace, events) && k < j < |trace|
    requires id !in trace[k].latest && events[k] == RecordText(id, sessionId, text)
    ensures UnderSession(trace[j], id, sessionId)
  {
    CaptureIsSafe(trace, events, j - 1);
    if j == k + 1 {
      FirstRecording(trace[k], id, sessionId, text);
    } else {
      FirstSessionStays(trace, events, k, j - 1, id, sessionId, text);
      SessionStays(trace[j - 1], events[j - 1], id, sessionId);
    }
  }
}
