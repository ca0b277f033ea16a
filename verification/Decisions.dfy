/**
 Reading consolidation decisions out of model replies: strict validation of one
 decision, and correlation of a batched reply by the candidate index each entry states.
 A reply is taken after JSON parsing.
 */
module Decisions {
  import opened Tables
  import opened TextOrder
  import opened Consolidation

  datatype Json =
    | JNull
    | JBool(b: bool)
    | JInt(n: int)
    | JFraction(r: real)
    | JString(s: string)
    | JArray(items: seq<Json>)
    | JObject(fields: map<string, Json>)

  datatype Decision = Decision(action: Action, targets: seq<string>, rationale: string)

  function Field(j: Json, name: string): Option<Json> {
    if j.JObject? && name in j.fields then Some(j.fields[name]) else None
  }

  function ActionName(a: Action): string {
    match a case Store => "store" case Update => "update" case Merge => "merge" case Skip => "skip"
  }

  function ParseAction(j: Option<Json>): Option<Action> {
    if j == Some(JString("store")) then Some(Store)
    else if j == Some(JString("update")) then Some(Update)
    else if j == Some(JString("merge")) then Some(Merge)
    else if j == Some(JString("skip")) then Some(Skip)
    else None
  }

  /** All entries as strings, with no coercion. */
  function Strings(items: seq<Json>): (r: Option<seq<string>>)
    ensures r.Some? ==> |r.value| == |items|
  {
    if items == [] then Some([])
    else if !items[0].JString? then None
    else
      match Strings(items[1..])
      case None => None
      case Some(rest) => Some([items[0].s] + rest)
  }

  predicate RightCount(a: Action, n: nat) {
    match a case Store | Skip => n == 0 case Update => n == 1 case Merge => n >= 2
  }

  predicate NoRepeats(ids: seq<string>) {
    |(set x | x in ids)| == |ids|
  }

  /** What the pass may apply for a candidate that was shown `allowed`. */
  predicate Fits(d: Decision, allowed: set<string>) {
    RightCount(d.action, |d.targets|) && NoRepeats(d.targets) && forall id <- d.targets :: id in allowed
  }

  function Validate(j: Json, allowed: set<string>): (d: Option<Decision>)
    ensures d.Some? ==> Fits(d.value, allowed)
  {
    var action := ParseAction(Field(j, "action"));
    var targets := match Field(j, "target_ids") case Some(JArray(items)) => Strings(items) case _ => None;
    if action == None || targets == None then None
    else
      var d := Decision(action.value, targets.value,
                        match Field(j, "rationale") case Some(JString(s)) => s case _ => "");
      if Fits(d, allowed) then Some(d) else None
  }

  // ----- Validation accepts exactly the decisions that fit

  function StringArray(ids: seq<string>): seq<Json> {
    seq(|ids|, i requires 0 <= i < |ids| => JString(ids[i]))
  }

  /** The reply object that states a decision. */
  function Encode(d: Decision): Json {
    JObject(map["action" := JString(ActionName(d.action)), "target_ids" := JArray(StringArray(d.targets)),
                "rationale" := JString(d.rationale)])
  }

  lemma {:induction false} StringsOfArray(ids: seq<string>)
    ensures Strings(StringArray(ids)) == Some(ids)
  {
    if ids != [] {
      assert StringArray(ids)[1..] == StringArray(ids[1..]);
      StringsOfArray(ids[1..]);
      assert ids == [ids[0]] + ids[1..];
    }
  }

  /** A stated decision is accepted, unchanged, exactly when it fits the candidate. */
  lemma ValidateEncoded(d: Decision, allowed: set<string>)
    ensures Validate(Encode(d), allowed) == if Fits(d, allowed) then Some(d) else None
  {
    StringsOfArray(d.targets);
  }

  ghost predicate AreStrings(items: seq<Json>, ids: seq<string>) {
    |items| == |ids| && forall k :: 0 <= k < |ids| ==> items[k] == JString(ids[k])
  }

  lemma AreStringsHead(items: seq<Json>, ids: seq<string>)
    requires items != [] && ids != []
    ensures AreStrings(items, ids) <==> items[0] == JString(ids[0]) && AreStrings(items[1..], ids[1..])
  {
    if items[0] == JString(ids[0]) && AreStrings(items[1..], ids[1..]) {
      forall k | 0 <= k < |ids| ensures items[k] == JString(ids[k]) {
        if k > 0 { assert items[1..][k - 1] == JString(ids[1..][k - 1]); }
      }
    }
  }

  lemma {:induction false} StringsAre(items: seq<Json>, ids: seq<string>)
    ensures Strings(items) == Some(ids) <==> AreStrings(items, ids)
  {
    if items != [] && ids != [] {
      StringsAre(items[1..], ids[1..]);
      AreStringsHead(items, ids);
      assert ids == [ids[0]] + ids[1..];
      if Strings(items) == Some(ids) { assert Strings(items[1..]).value == ids[1..]; }
    }
  }

  /** An object with one of the four actions, its targets as an array of strings and, if it has
      a string for one, a rationale. */
  ghost predicate Says(j: Json, d: Decision) {
    && j.JObject? && "action" in j.fields && "target_ids" in j.fields && j.fields["target_ids"].JArray?
    && j.fields["action"] == JString(match d.action case Store => "store" case Update => "update" case Merge => "merge" case Skip => "skip")
    && AreStrings(j.fields["target_ids"].items, d.targets)
    && d.rationale == if "rationale" in j.fields && j.fields["rationale"].JString? then j.fields["rationale"].s else ""
  }

  /** The targets are distinct, were shown, and are as many as the action takes. */
  ghost predicate Sound(d: Decision, shown: set<string>) {
    && Distinct(d.targets) && (forall id <- d.targets :: id in shown)
    && match d.action case Store => d.targets == [] case Skip => d.targets == [] case Update => |d.targets| == 1 case Merge => |d.targets| >= 2
  }

  /** Which replies are accepted, and as what: exactly those that say a sound decision. Every
      other one is refused, never read as a skip. */
  lemma ValidatesExactly(j: Json, allowed: set<string>, d: Decision)
    ensures Validate(j, allowed) == Some(d) <==> Says(j, d) && Sound(d, allowed)
  {
    NoRepeatsIsDistinct(d.targets);
    if j.JObject? && "target_ids" in j.fields && j.fields["target_ids"].JArray? {
      StringsAre(j.fields["target_ids"].items, d.targets);
    }
  }

  lemma DistinctHead(ids: seq<string>)
    requires ids != []
    ensures Distinct(ids) <==> ids[0] !in ids[1..] && Distinct(ids[1..])
  {
    var rest := ids[1..];
    if k :| 0 <= k < |rest| && rest[k] == ids[0] { assert ids[0] == ids[k + 1]; }
    if i, k :| 0 <= i < k < |rest| && rest[i] == rest[k] { assert ids[i + 1] == ids[k + 1]; }
  }

  lemma {:induction false} NoRepeatsIsDistinct(ids: seq<string>)
    ensures NoRepeats(ids) <==> Distinct(ids)
  {
    var whole := set x | x in ids;
    if ids == [] {
      assert whole == {};
    } else {
      var tail := set x | x in ids[1..];
      NoRepeatsIsDistinct(ids[1..]);
      DistinctHead(ids);
      SetOfRest(ids[1..]);
      assert ids == [ids[0]] + ids[1..];
      assert whole == tail + {ids[0]};
      if ids[0] in ids[1..] { assert whole == tail; }
    }
  }

  lemma {:induction false} SetOfRest(ids: seq<string>)
    ensures |(set x | x in ids)| <= |ids|
  {
    if ids != [] {
      SetOfRest(ids[1..]);
      assert ids == [ids[0]] + ids[1..];
      assert (set x | x in ids) == (set x | x in ids[1..]) + {ids[0]};
    }
  }

  // ----- A batched reply

  /** The two readings of a reply: its bracketed payload if that parses as an array, and
      the objects found by scanning it line by line. */
  datatype Reply = Reply(bracketed: Option<seq<Json>>, lines: seq<Json>)

  /** The candidate index an entry states, if it is an integer in range. */
  function Stated(j: Json, n: nat): (i: Option<nat>)
    ensures i.Some? ==> i.value < n
  {
    match Field(j, "candidate")
    case Some(JInt(k)) => if 0 <= k < n then Some(k) else None
    case _ => None
  }

  predicate BatchShaped(entries: seq<Json>, n: nat) {
    exists j <- entries :: Stated(j, n).Some?
  }

  /** The entries that count: the array when any of its elements states an index. */
  function Payload(reply: Reply, n: nat): seq<Json> {
    if reply.bracketed.Some? && BatchShaped(reply.bracketed.value, n) then reply.bracketed.value else reply.lines
  }

  /** The entries stating index i, in order. */
  function Stating(entries: seq<Json>, i: nat, n: nat): seq<Json> {
    if entries == [] then []
    else
      var front := Stating(entries[..|entries| - 1], i, n);
      var last := entries[|entries| - 1];
      if Stated(last, n) == Some(i) then front + [last] else front
  }

  function FirstValid(entries: seq<Json>, allowed: set<string>): (d: Option<Decision>)
    ensures d.Some? ==> Fits(d.value, allowed)
  {
    if entries == [] then None
    else
      var front := FirstValid(entries[..|entries| - 1], allowed);
      if front.Some? then front else Validate(entries[|entries| - 1], allowed)
  }

  /** (index, number of entries stating it), for each index stated more than once. */
  datatype Duplicate = Duplicate(index: nat, count: nat)

  function Duplicates(entries: seq<Json>, n: nat, upto: nat): seq<Duplicate> {
    if upto == 0 then []
    else
      var front := Duplicates(entries, n, upto - 1);
      var count := |Stating(entries, upto - 1, n)|;
      if count > 1 then front + [Duplicate(upto - 1, count)] else front
  }

  ghost predicate Correlated(entries: seq<Json>, allowed: seq<set<string>>, out: seq<Option<Decision>>) {
    && |out| == |allowed|
    && forall i :: 0 <= i < |allowed| ==> out[i] == FirstValid(Stating(entries, i, |allowed|), allowed[i])
  }

  ghost predicate Counted(entries: seq<Json>, n: nat, seen: seq<nat>) {
    |seen| == n && forall i :: 0 <= i < n ==> seen[i] == |Stating(entries, i, n)|
  }

  /** The accept loop over a run of entries, updating the slots and the counts. */
  method AcceptAll(entries: seq<Json>, allowed: seq<set<string>>)
    returns (out: seq<Option<Decision>>, seen: seq<nat>, batchShaped: nat)
    ensures Correlated(entries, allowed, out)
    ensures Counted(entries, |allowed|, seen)
    ensures batchShaped > 0 <==> BatchShaped(entries, |allowed|)
  {
    var n := |allowed|;
    out := seq(n, i => None);
    seen := seq(n, i => 0);
    batchShaped := 0;
    for k := 0 to |entries|
      invariant Correlated(entries[..k], allowed, out)
      invariant Counted(entries[..k], n, seen)
      invariant batchShaped > 0 <==> BatchShaped(entries[..k], n)
    {
      var entry := entries[k];
      var prefix := entries[..k + 1];
      assert prefix[..|prefix| - 1] == entries[..k] && prefix[|prefix| - 1] == entry;
      assert prefix == entries[..k] + [entry];
      ghost var out0, seen0 := out, seen;
      var stated := Stated(entry, n);
      if stated.Some? {
        batchShaped := batchShaped + 1;
        var idx := stated.value;
        seen := seen[idx := seen[idx] + 1];
        if out[idx] == None {
          var dec := Validate(entry, allowed[idx]);
          out := out[idx := dec];
        }
      }
      AcceptStep(entries[..k], entry, prefix, allowed, out0, seen0, out, seen);
    }
    assert entries[..|entries|] == entries;
  }

  lemma AcceptStep(before: seq<Json>, entry: Json, prefix: seq<Json>, allowed: seq<set<string>>,
                   out0: seq<Option<Decision>>, seen0: seq<nat>, out: seq<Option<Decision>>, seen: seq<nat>)
    requires prefix == before + [entry]
    requires Correlated(before, allowed, out0) && Counted(before, |allowed|, seen0)
    requires |out| == |allowed| && |seen| == |allowed|
    requires match Stated(entry, |allowed|)
             case None => out == out0 && seen == seen0
             case Some(i) =>
               && seen == seen0[i := seen0[i] + 1]
               && out == if out0[i] == None then out0[i := Validate(entry, allowed[i])] else out0
    ensures Correlated(prefix, allowed, out) && Counted(prefix, |allowed|, seen)
  {
    assert prefix[..|prefix| - 1] == before && prefix[|prefix| - 1] == entry;
    var n := |allowed|;
    forall i | 0 <= i < n
      ensures seen[i] == |Stating(prefix, i, n)|
      ensures out[i] == FirstValid(Stating(prefix, i, n), allowed[i])
    {
      var s := Stating(before, i, n);
      if Stated(entry, n) == Some(i) {
        assert (s + [entry])[..|s + [entry]| - 1] == s;
      }
    }
  }

  /** One decision slot per candidate, and the duplicate report. */
  method ParseConsolidationBatch(reply: Reply, allowed: seq<set<string>>)
    returns (out: seq<Option<Decision>>, duplicates: seq<Duplicate>)
    ensures Correlated(Payload(reply, |allowed|), allowed, out)
    ensures duplicates == Duplicates(Payload(reply, |allowed|), |allowed|, |allowed|)
  {
    var n := |allowed|;
    if reply.bracketed.Some? {
      var fromArray, seen, batchShaped := AcceptAll(reply.bracketed.value, allowed);
      if batchShaped > 0 {
        out := fromArray;
        duplicates := ReportDuplicates(reply.bracketed.value, seen);
        return;
      }
    }
    var fromLines, seen, _ := AcceptAll(reply.lines, allowed);
    out := fromLines;
    duplicates := ReportDuplicates(reply.lines, seen);
  }

  method ReportDuplicates(ghost entries: seq<Json>, seen: seq<nat>) returns (duplicates: seq<Duplicate>)
    requires Counted(entries, |seen|, seen)
    ensures duplicates == Duplicates(entries, |seen|, |seen|)
  {
    duplicates := [];
    for i := 0 to |seen|
      invariant duplicates == Duplicates(entries, |seen|, i)
    {
      if seen[i] > 1 { duplicates := duplicates + [Duplicate(i, seen[i])]; }
    }
  }

  // ----- What correlation by index means

  lemma {:induction false} StatingIsSubsequence(entries: seq<Json>, i: nat, n: nat)
    ensures forall j :: j in Stating(entries, i, n) <==> j in entries && Stated(j, n) == Some(i)
  {
    if entries != [] {
      StatingIsSubsequence(entries[..|entries| - 1], i, n);
      assert entries == entries[..|entries| - 1] + [entries[|entries| - 1]];
    }
  }

  /** A slot is empty exactly when no entry stating its index is valid. */
  lemma {:induction false} SlotEmptyExactly(entries: seq<Json>, allowed: set<string>)
    ensures FirstValid(entries, allowed) == None <==> forall j :: j in entries ==> Validate(j, allowed) == None
  {
    if entries != [] {
      var m := |entries| - 1;
      SlotEmptyExactly(entries[..m], allowed);
      assert entries == entries[..m] + [entries[m]];
    }
  }

  /** A filled slot holds the earliest valid entry. */
  lemma {:induction false} SlotHoldsFirst(entries: seq<Json>, allowed: set<string>) returns (k: nat)
    requires FirstValid(entries, allowed).Some?
    ensures k < |entries| && Validate(entries[k], allowed) == FirstValid(entries, allowed)
    ensures forall j :: j in entries[..k] ==> Validate(j, allowed) == None
  {
    var m := |entries| - 1;
    if FirstValid(entries[..m], allowed).Some? {
      k := SlotHoldsFirst(entries[..m], allowed);
      assert entries[..m][..k] == entries[..k];
    } else {
      k := m;
      SlotEmptyExactly(entries[..m], allowed);
    }
  }

  lemma {:induction false} StatingAppend(a: seq<Json>, b: seq<Json>, i: nat, n: nat)
    ensures Stating(a + b, i, n) == Stating(a, i, n) + Stating(b, i, n)
  {
    if b == [] {
      assert a + b == a;
    } else {
      var m := |b| - 1;
      StatingAppend(a, b[..m], i, n);
      assert (a + b)[..|a + b| - 1] == a + b[..m];
    }
  }

  /** Exchanging two neighbours that do not state the same index changes no slot. */
  lemma ExchangeHarmless(a: seq<Json>, x: Json, y: Json, b: seq<Json>, i: nat, n: nat)
    requires Stated(x, n) == None || Stated(x, n) != Stated(y, n)
    ensures Stating(a + [x, y] + b, i, n) == Stating(a + [y, x] + b, i, n)
  {
    StatingAppend(a + [x, y], b, i, n);
    StatingAppend(a + [y, x], b, i, n);
    StatingAppend(a, [x, y], i, n);
    StatingAppend(a, [y, x], i, n);
    assert [x, y][..1] == [x] && [y, x][..1] == [y];
    assert [x][..0] == [] && [y][..0] == [];
  }

  /** `t` is `s` rearranged: its k-th entry comes from place `p[k]`. Entries stating the same
      index keep their order; all others may go anywhere. */
  ghost predicate Reordered(s: seq<Json>, t: seq<Json>, p: seq<nat>, n: nat) {
    && |s| == |t| == |p|
    && (forall k :: 0 <= k < |t| ==> p[k] < |s| && t[k] == s[p[k]])
    && (forall x :: 0 <= x < |s| ==> x in p)
    && forall k, l :: 0 <= k < l < |t| && Stated(t[k], n).Some? && Stated(t[k], n) == Stated(t[l], n) ==> p[k] < p[l]
  }

  ghost predicate Rearranged(s: seq<Json>, t: seq<Json>, n: nat) {
    exists p :: Reordered(s, t, p, n)
  }

  /** Where the entries stating index i are. */
  function Places(entries: seq<Json>, i: nat, n: nat): seq<nat> {
    if entries == [] then []
    else
      var m := |entries| - 1;
      var front := Places(entries[..m], i, n);
      if Stated(entries[m], n) == Some(i) then front + [m] else front
  }

  ghost predicate Ascending(ps: seq<nat>) {
    forall j, k :: 0 <= j < k < |ps| ==> ps[j] < ps[k]
  }

  lemma {:induction false} PlacesAre(entries: seq<Json>, i: nat, n: nat)
    ensures Ascending(Places(entries, i, n))
    ensures forall k: nat :: k in Places(entries, i, n) <==> k < |entries| && Stated(entries[k], n) == Some(i)
  {
    if entries != [] {
      var m := |entries| - 1;
      var front := Places(entries[..m], i, n);
      PlacesAre(entries[..m], i, n);
      forall j | 0 <= j < |front| ensures front[j] < m {
        assert front[j] in front;
      }
    }
  }

  /** `picked` lists the entries at `places`. */
  ghost predicate Picks(entries: seq<Json>, places: seq<nat>, picked: seq<Json>) {
    |picked| == |places| && forall j :: 0 <= j < |places| ==> places[j] < |entries| && picked[j] == entries[places[j]]
  }

  lemma {:induction false} StatingPicks(entries: seq<Json>, i: nat, n: nat)
    ensures Picks(entries, Places(entries, i, n), Stating(entries, i, n))
  {
    if entries != [] {
      StatingPicks(entries[..|entries| - 1], i, n);
    }
  }

  lemma {:induction false} AscendingUnique(a: seq<nat>, b: seq<nat>)
    requires Ascending(a) && Ascending(b) && forall x :: x in a <==> x in b
    ensures a == b
  {
    if a == [] {
      if b != [] { HasElement(b); }
    } else {
      assert a[0] in b && b[0] in a;
      assert a == [a[0]] + a[1..] && b == [b[0]] + b[1..];
      forall x ensures x in a[1..] <==> x in b[1..] {
        if x in a[1..] { assert x in b && x != b[0]; }
        if x in b[1..] { assert x in a && x != a[0]; }
      }
      AscendingUnique(a[1..], b[1..]);
    }
  }

  /** Where the entries of index i in `t` come from. */
  ghost predicate Traces(p: seq<nat>, there: seq<nat>, here: seq<nat>) {
    |here| == |there| && forall j :: 0 <= j < |there| ==> there[j] < |p| && here[j] == p[there[j]]
  }

  lemma TracesAscend(s: seq<Json>, t: seq<Json>, p: seq<nat>, i: nat, n: nat, here: seq<nat>)
    requires Reordered(s, t, p, n) && Traces(p, Places(t, i, n), here)
    ensures Ascending(here)
  {
    PlacesAre(t, i, n);
    var there := Places(t, i, n);
    forall j, k | 0 <= j < k < |here| ensures here[j] < here[k] {
      assert there[j] in there && there[k] in there;
    }
  }

  lemma TracesCover(s: seq<Json>, t: seq<Json>, p: seq<nat>, i: nat, n: nat, here: seq<nat>, x: nat)
    requires Reordered(s, t, p, n) && Traces(p, Places(t, i, n), here)
    ensures x in here <==> x in Places(s, i, n)
  {
    PlacesAre(s, i, n);
    PlacesAre(t, i, n);
    var there := Places(t, i, n);
    if x in here {
      var j :| 0 <= j < |here| && here[j] == x;
      assert there[j] in there;
    }
    if x in Places(s, i, n) {
      assert x in p;
      var k :| 0 <= k < |p| && p[k] == x;
      assert k in there;
      var j :| 0 <= j < |there| && there[j] == k;
      assert here[j] == x;
    }
  }

  /** Each index sees the same entries in the same order. */
  lemma ReorderedStating(s: seq<Json>, t: seq<Json>, p: seq<nat>, i: nat, n: nat)
    requires Reordered(s, t, p, n)
    ensures Stating(s, i, n) == Stating(t, i, n)
  {
    PlacesAre(t, i, n);
    var there := Places(t, i, n);
    forall j | 0 <= j < |there| ensures there[j] < |p| {
      assert there[j] in there;
    }
    var here := seq(|there|, j requires 0 <= j < |there| => p[there[j]]);
    TracesAscend(s, t, p, i, n, here);
    forall x ensures x in here <==> x in Places(s, i, n) {
      TracesCover(s, t, p, i, n, here, x);
    }
    PlacesAre(s, i, n);
    AscendingUnique(here, Places(s, i, n));
    StatingPicks(s, i, n);
    StatingPicks(t, i, n);
    SamePicks(s, t, p, here, there, Stating(s, i, n), Stating(t, i, n), n);
  }

  lemma SamePicks(s: seq<Json>, t: seq<Json>, p: seq<nat>, here: seq<nat>, there: seq<nat>, a: seq<Json>, b: seq<Json>, n: nat)
    requires Reordered(s, t, p, n) && Traces(p, there, here) && Picks(s, here, a) && Picks(t, there, b)
    ensures a == b
  {
    forall j | 0 <= j < |a| ensures a[j] == b[j] {
      assert b[j] == t[there[j]] == s[p[there[j]]] == s[here[j]];
    }
  }

  lemma {:induction false} SameDuplicates(s: seq<Json>, t: seq<Json>, n: nat, upto: nat)
    requires forall i: nat :: Stating(s, i, n) == Stating(t, i, n)
    ensures Duplicates(s, n, upto) == Duplicates(t, n, upto)
  {
    if upto > 0 { SameDuplicates(s, t, n, upto - 1); }
  }

  lemma ReorderedShape(s: seq<Json>, t: seq<Json>, p: seq<nat>, n: nat)
    requires Reordered(s, t, p, n)
    ensures BatchShaped(s, n) <==> BatchShaped(t, n)
  {
    if j :| j in s && Stated(j, n).Some? {
      var x :| 0 <= x < |s| && s[x] == j;
      assert x in p;
      var k :| 0 <= k < |p| && p[k] == x;
      assert t[k] in t;
    }
    if j :| j in t && Stated(j, n).Some? {
      var k :| 0 <= k < |t| && t[k] == j;
      assert s[p[k]] in s;
    }
  }

  /** Rearranging entries that state different indices changes no slot and no report. */
  lemma ReorderingHarmless(s: seq<Json>, t: seq<Json>, allowed: seq<set<string>>, out: seq<Option<Decision>>,
                           out': seq<Option<Decision>>, upto: nat)
    requires Rearranged(s, t, |allowed|)
    requires Correlated(s, allowed, out) && Correlated(t, allowed, out')
    ensures out == out' && Duplicates(s, |allowed|, upto) == Duplicates(t, |allowed|, upto)
    ensures BatchShaped(s, |allowed|) <==> BatchShaped(t, |allowed|)
  {
    var p :| Reordered(s, t, p, |allowed|);
    forall i: nat ensures Stating(s, i, |allowed|) == Stating(t, i, |allowed|) {
      ReorderedStating(s, t, p, i, |allowed|);
    }
    SameDuplicates(s, t, |allowed|, upto);
    ReorderedShape(s, t, p, |allowed|);
  }

  /** Both readings of a reply rearranged so. */
  ghost predicate ReplyRearranged(r: Reply, r': Reply, n: nat) {
    && (r.bracketed.Some? <==> r'.bracketed.Some?)
    && (r.bracketed.Some? ==> Rearranged(r.bracketed.value, r'.bracketed.value, n))
    && Rearranged(r.lines, r'.lines, n)
  }

  /** Hence a model may answer for the candidates in any order. */
  lemma ReplyOrderHarmless(r: Reply, r': Reply, allowed: seq<set<string>>, out: seq<Option<Decision>>,
                           out': seq<Option<Decision>>)
    requires ReplyRearranged(r, r', |allowed|)
    requires Correlated(Payload(r, |allowed|), allowed, out) && Correlated(Payload(r', |allowed|), allowed, out')
    ensures out == out'
    ensures Duplicates(Payload(r, |allowed|), |allowed|, |allowed|) == Duplicates(Payload(r', |allowed|), |allowed|, |allowed|)
  {
    var n := |allowed|;
    if r.bracketed.Some? {
      var p :| Reordered(r.bracketed.value, r'.bracketed.value, p, n);
      ReorderedShape(r.bracketed.value, r'.bracketed.value, p, n);
    }
    ReorderingHarmless(Payload(r, n), Payload(r', n), allowed, out, out', n);
  }

  lemma {:induction false} DuplicatesExactly(entries: seq<Json>, n: nat, upto: nat, d: Duplicate)
    ensures d in Duplicates(entries, n, upto) <==> d.index < upto && d.count == |Stating(entries, d.index, n)| > 1
  {
    if upto > 0 { DuplicatesExactly(entries, n, upto - 1, d); }
  }
}
