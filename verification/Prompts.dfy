/**
 The batched consolidation prompt: what it shows of each candidate, and its length. The
 wording is a parameter; each candidate's block carries its position in the chunk, counted
 from 0, and a list of its neighbours counted from 1.
 */
module Prompts {
  import opened Text
  import opened Packing

  datatype Memo = Memo(id: string, kind: string, content: string, confidence: string)

  datatype Retrieved = Retrieved(kind: string, content: string, confidence: string, existing: seq<Memo>)

  /** The fixed pieces of text around and inside the blocks. */
  datatype Wording = Wording(header: string, footer: string, caption: string, kindLabel: string,
                             confidenceLabel: string,
                             contentLabel: string, neighboursLabel: string, none: string, separator: string)

  function Digit(d: nat): char
    requires d < 10
  {
    "0123456789"[d]
  }

  function Decimal(n: nat): (s: string)
    ensures s != ""
  {
    if n < 10 then [Digit(n)] else Decimal(n / 10) + [Digit(n % 10)]
  }

  function NeighbourLine(a: Memo, number: nat): string {
    "    " + Decimal(number) + ". [" + a.id + "] (" + a.kind + ", " + a.confidence + ") " + a.content
  }

  function NeighbourLines(existing: seq<Memo>): seq<string> {
    seq(|existing|, j requires 0 <= j < |existing| => NeighbourLine(existing[j], j + 1))
  }

  /** The part of a block that does not depend on the candidate's position. */
  function BlockBody(w: Wording, item: Retrieved): string {
    var list := Join(NeighbourLines(item.existing), "\n");
    w.kindLabel + item.kind + w.confidenceLabel + item.confidence + w.contentLabel + item.content
    + w.neighboursLabel + (if list == "" then w.none else list)
  }

  function Block(w: Wording, item: Retrieved, index: nat): string {
    w.caption + Decimal(index) + BlockBody(w, item)
  }

  function Blocks(w: Wording, items: seq<Retrieved>): seq<string> {
    seq(|items|, i requires 0 <= i < |items| => Block(w, items[i], i))
  }

  function BatchPrompt(w: Wording, items: seq<Retrieved>): string {
    w.header + Join(Blocks(w, items), w.separator) + w.footer
  }

  // ----- What the prompt shows

  ghost predicate Around(front: string, part: string, back: string, whole: string) { whole == front + part + back }

  ghost predicate Within(part: string, whole: string) {
    exists front, back :: Around(front, part, back, whole)
  }

  lemma WithinMiddle(front: string, part: string, back: string)
    ensures Within(part, front + part + back)
  {
    assert Around(front, part, back, front + part + back);
  }

  lemma WithinTwice(part: string, middle: string, whole: string)
    requires Within(part, middle) && Within(middle, whole)
    ensures Within(part, whole)
  {
    var a, b :| Around(a, part, b, middle);
    var c, d :| Around(c, middle, d, whole);
    assert Around(c + a, part, b + d, whole);
  }

  lemma {:induction false} WithinJoin(parts: seq<string>, separator: string, i: nat)
    requires i < |parts|
    ensures Within(parts[i], Join(parts, separator))
  {
    var whole := Join(parts, separator);
    if |parts| == 1 {
      assert Around("", parts[0], "", whole);
    } else if i == 0 {
      assert Around("", parts[0], separator + Join(parts[1..], separator), whole);
    } else {
      WithinJoin(parts[1..], separator, i - 1);
      var rest := Join(parts[1..], separator);
      assert whole == (parts[0] + separator) + rest + "";
      WithinMiddle(parts[0] + separator, rest, "");
      WithinTwice(parts[i], rest, whole);
    }
  }

  /** Reading the digits back. */
  ghost function Value(s: string): nat {
    if s == "" then 0
    else 10 * Value(s[..|s| - 1]) + if '0' <= s[|s| - 1] <= '9' then (s[|s| - 1] - '0') as nat else 0
  }

  lemma {:induction false} DecimalTells(n: nat)
    ensures Value(Decimal(n)) == n
  {
    if n >= 10 {
      DecimalTells(n / 10);
      assert Decimal(n)[..|Decimal(n)| - 1] == Decimal(n / 10);
    } else {
      assert Value([Digit(n)][..0]) == 0;
    }
  }

  /** A candidate's own words, as they stand before its neighbours. */
  ghost function Described(w: Wording, item: Retrieved): string {
    w.kindLabel + item.kind + w.confidenceLabel + item.confidence + w.contentLabel + item.content + w.neighboursLabel
  }

  lemma Regroup(a: string, b: string, c: string)
    ensures a + (b + c) == a + b + c && a + b == a + b + "" && b + c == "" + b + c
  {
  }

  /** Candidate i of the chunk is shown under its number with its kind, confidence and content. */
  lemma PromptShowsCandidate(w: Wording, items: seq<Retrieved>, i: nat)
    requires i < |items|
    ensures Within(w.caption + Decimal(i) + Described(w, items[i]), BatchPrompt(w, items))
  {
    var front, words := w.caption + Decimal(i), Described(w, items[i]);
    var list := Join(NeighbourLines(items[i].existing), "\n");
    var tail := if list == "" then w.none else list;
    Regroup(front, words, tail);
    Regroup("", front + words, tail);
    WithinMiddle("", front + words, tail);
    BlockWithin(w, items, i);
    WithinTwice(front + words, Block(w, items[i], i), BatchPrompt(w, items));
  }

  lemma BlockWithin(w: Wording, items: seq<Retrieved>, i: nat)
    requires i < |items|
    ensures Within(Block(w, items[i], i), BatchPrompt(w, items))
  {
    var all := Join(Blocks(w, items), w.separator);
    WithinJoin(Blocks(w, items), w.separator, i);
    WithinMiddle(w.header, all, w.footer);
    WithinTwice(Block(w, items[i], i), all, BatchPrompt(w, items));
  }

  /** And with each of its neighbours: id, kind, confidence and content. */
  lemma PromptShowsNeighbour(w: Wording, items: seq<Retrieved>, i: nat, j: nat)
    requires i < |items| && j < |items[i].existing|
    ensures var m := items[i].existing[j];
            Within("[" + m.id + "] (" + m.kind + ", " + m.confidence + ") " + m.content, BatchPrompt(w, items))
  {
    var m := items[i].existing[j];
    var shown := "[" + m.id + "] (" + m.kind + ", " + m.confidence + ") " + m.content;
    var lines := NeighbourLines(items[i].existing);
    var front := "    " + Decimal(j + 1) + ". ";
    assert lines[j] == front + shown + "";
    WithinMiddle(front, shown, "");
    WithinJoin(lines, "\n", j);
    ListWithin(w, items[i], i, lines[j]);
    WithinTwice(shown, lines[j], Block(w, items[i], i));
    BlockWithin(w, items, i);
    WithinTwice(shown, Block(w, items[i], i), BatchPrompt(w, items));
  }

  lemma ListWithin(w: Wording, item: Retrieved, index: nat, line: string)
    requires line != "" && Within(line, Join(NeighbourLines(item.existing), "\n"))
    ensures Within(line, Block(w, item, index))
  {
    var list := Join(NeighbourLines(item.existing), "\n");
    var front, words := w.caption + Decimal(index), Described(w, item);
    if list == "" { WithinNothing(line); }
    Regroup(front, words, list);
    Regroup(front + words, list, "");
    WithinMiddle(front + words, list, "");
    WithinTwice(line, list, Block(w, item, index));
  }

  lemma WithinNothing(part: string)
    requires Within(part, "")
    ensures part == ""
  {
    var a, b :| Around(a, part, b, "");
    assert |part| <= |a + part + b|;
  }

  // ----- The prompt never grows on a contiguous sub-chunk

  lemma {:induction false} DecimalGrows(m: nat, n: nat)
    requires m <= n
    ensures |Decimal(m)| <= |Decimal(n)|
    decreases n
  {
    if m >= 10 {
      assert m / 10 <= n / 10;
      DecimalGrows(m / 10, n / 10);
    }
  }

  function TotalLength(parts: seq<string>): nat {
    if parts == [] then 0 else |parts[0]| + TotalLength(parts[1..])
  }

  lemma {:induction false} JoinLength(parts: seq<string>, separator: string)
    ensures |Join(parts, separator)| == TotalLength(parts) + if parts == [] then 0 else (|parts| - 1) * |separator|
  {
    if |parts| > 1 {
      JoinLength(parts[1..], separator);
      assert |parts[1..]| - 1 == |parts| - 2;
      assert (|parts| - 1) * |separator| == (|parts| - 2) * |separator| + |separator|;
    } else if |parts| == 1 {
      assert parts[1..] == [];
      assert 0 * |separator| == 0;
    }
  }

  lemma {:induction false} TotalLengthSplit(a: seq<string>, b: seq<string>)
    ensures TotalLength(a + b) == TotalLength(a) + TotalLength(b)
  {
    if a == [] {
      assert a + b == b;
    } else {
      assert (a + b)[1..] == a[1..] + b;
      TotalLengthSplit(a[1..], b);
    }
  }

  lemma {:induction false} TotalLengthPointwise(a: seq<string>, b: seq<string>)
    requires |a| == |b| && forall i :: 0 <= i < |a| ==> |a[i]| <= |b[i]|
    ensures TotalLength(a) <= TotalLength(b)
  {
    if a != [] { TotalLengthPointwise(a[1..], b[1..]); }
  }

  lemma BlockLength(w: Wording, item: Retrieved, index: nat)
    ensures |Block(w, item, index)| == |w.caption| + |Decimal(index)| + |BlockBody(w, item)|
  {
  }

  /** A block's length depends on its position only through the digits of its index. */
  lemma BlockShifts(w: Wording, item: Retrieved, k: nat, n: nat)
    requires k <= n
    ensures |Block(w, item, k)| <= |Block(w, item, n)|
  {
    DecimalGrows(k, n);
    BlockLength(w, item, k);
    BlockLength(w, item, n);
  }

  lemma BlocksShift(w: Wording, items: seq<Retrieved>, i: nat, j: nat)
    requires i < j <= |items|
    ensures forall k :: 0 <= k < j - i ==> |Blocks(w, items[i..j])[k]| <= |Blocks(w, items)[i..j][k]|
  {
    forall k | 0 <= k < j - i ensures |Blocks(w, items[i..j])[k]| <= |Blocks(w, items)[i..j][k]| {
      BlockShifts(w, items[i + k], k, i + k);
    }
  }

  lemma MiddleLength(whole: seq<string>, i: nat, j: nat)
    requires i <= j <= |whole|
    ensures TotalLength(whole[i..j]) <= TotalLength(whole)
  {
    CutInThree(whole, i, j);
    LengthOfThree(whole[..i], whole[i..j], whole[j..]);
  }

  lemma CutInThree<T>(whole: seq<T>, i: nat, j: nat)
    requires i <= j <= |whole|
    ensures whole == whole[..i] + whole[i..j] + whole[j..]
  {
  }

  lemma LengthOfThree(a: seq<string>, b: seq<string>, c: seq<string>)
    ensures TotalLength(a + b + c) == TotalLength(a) + TotalLength(b) + TotalLength(c)
  {
    TotalLengthSplit(a + b, c);
    TotalLengthSplit(a, b);
  }

  lemma JoinOfPart(part: seq<string>, whole: seq<string>, i: nat, j: nat, separator: string)
    requires i < j <= |whole| && |part| == j - i
    requires forall k :: 0 <= k < |part| ==> |part[k]| <= |whole[i..j][k]|
    ensures |Join(part, separator)| <= |Join(whole, separator)|
  {
    TotalLengthPointwise(part, whole[i..j]);
    MiddleLength(whole, i, j);
    JoinLength(whole, separator);
    JoinLength(part, separator);
    FewerSeparators(|part| - 1, |whole| - 1, |separator|);
  }

  lemma BatchPromptShrinks(w: Wording, items: seq<Retrieved>, i: nat, j: nat)
    requires i < j <= |items|
    ensures |BatchPrompt(w, items[i..j])| <= |BatchPrompt(w, items)|
  {
    BlocksShift(w, items, i, j);
    JoinOfPart(Blocks(w, items[i..j]), Blocks(w, items), i, j, w.separator);
  }

  lemma FewerSeparators(m: nat, n: nat, length: nat)
    requires m <= n
    ensures m * length <= n * length
  {
  }

  function Builder(w: Wording): seq<Retrieved> -> string {
    (items: seq<Retrieved>) => BatchPrompt(w, items)
  }

  /** Packing real consolidation prompts uses the fewest calls any legal grouping could,
      for every wording of the prompt. */
  lemma ConsolidationPackingOptimal(w: Wording, batchSize: nat, maxChars: int,
                                    packed: seq<seq<Retrieved>>, other: seq<seq<Retrieved>>, items: seq<Retrieved>)
    requires LegalSplit(Builder(w), batchSize, maxChars, packed, items)
    requires Greedy(Builder(w), batchSize, maxChars, packed)
    requires LegalSplit(Builder(w), batchSize, maxChars, other, items)
    ensures |packed| <= |other|
  {
    assert ShrinksWithChunk(Builder(w)) by {
      forall c: seq<Retrieved>, i, j | 0 <= i < j <= |c| ensures |Builder(w)(c[i..j])| <= |Builder(w)(c)| {
        BatchPromptShrinks(w, c, i, j);
      }
    }
    PackingOptimal(Builder(w), batchSize, maxChars, packed, other, items);
  }
}
