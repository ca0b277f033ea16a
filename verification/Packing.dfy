/**
 Grouping candidates into consolidation prompts, under a cap on the number of
 candidates and an optional cap on the length of the prompt they build.
 */
module Packing {

  function Flatten<T>(chunks: seq<seq<T>>): (r: seq<T>) {
    if chunks == [] then [] else chunks[0] + Flatten(chunks[1..])
  }

  /** A chunk that may be sent: never empty, within the batch size, and within the length
      cap unless it is a single candidate (which is sent however long it is). */
  predicate Legal<T>(build: seq<T> -> string, batchSize: nat, maxChars: int, chunk: seq<T>) {
    && 0 < |chunk| <= batchSize
    && (maxChars <= 0 || |chunk| == 1 || |build(chunk)| <= maxChars)
  }

  ghost predicate LegalSplit<T>(build: seq<T> -> string, batchSize: nat, maxChars: int, chunks: seq<seq<T>>,
                                items: seq<T>) {
    && Flatten(chunks) == items
    && forall c :: c in chunks ==> Legal(build, batchSize, maxChars, c)
  }

  /** A chunk that could not also have taken the first candidate of the next one. */
  predicate Full<T>(build: seq<T> -> string, batchSize: nat, maxChars: int, chunk: seq<T>, next: seq<T>) {
    next != [] && !Legal(build, batchSize, maxChars, chunk + [next[0]])
  }

  ghost predicate Greedy<T>(build: seq<T> -> string, batchSize: nat, maxChars: int, chunks: seq<seq<T>>) {
    forall i, j :: 0 <= i && j == i + 1 < |chunks| ==> Full(build, batchSize, maxChars, chunks[i], chunks[j])
  }

  lemma {:induction false} FlattenAppend<T>(chunks: seq<seq<T>>, c: seq<T>)
    ensures Flatten(chunks + [c]) == Flatten(chunks) + c
  {
    if chunks == [] {
      assert chunks + [c] == [c];
      assert Flatten([c]) == c + Flatten<T>([]);
    } else {
      FlattenAppend(chunks[1..], c);
      assert (chunks + [c])[1..] == chunks[1..] + [c];
    }
  }

  /** Candidates too long to share a prompt, in order: each is warned about once. */
  function Oversized<T>(build: seq<T> -> string, maxChars: int, chunks: seq<seq<T>>): seq<T> {
    if chunks == [] then []
    else
      (if maxChars > 0 && chunks[0] != [] && |build([chunks[0][0]])| > maxChars then [chunks[0][0]] else [])
      + Oversized(build, maxChars, chunks[1..])
  }

  lemma {:induction false} OversizedAppend<T>(build: seq<T> -> string, maxChars: int, chunks: seq<seq<T>>, c: seq<T>)
    ensures Oversized(build, maxChars, chunks + [c]) == Oversized(build, maxChars, chunks) + Oversized(build, maxChars, [c])
  {
    if chunks == [] {
      assert chunks + [c] == [c];
    } else {
      OversizedAppend(build, maxChars, chunks[1..], c);
      assert (chunks + [c])[1..] == chunks[1..] + [c];
    }
  }

  /** Starting a new chunk after a full one. */
  lemma StartChunk<T>(build: seq<T> -> string, batchSize: nat, maxChars: int, chunks: seq<seq<T>>, done: seq<T>,
                      chunk: seq<T>)
    requires LegalSplit(build, batchSize, maxChars, chunks, done) && Greedy(build, batchSize, maxChars, chunks)
    requires Legal(build, batchSize, maxChars, chunk)
    requires chunks != [] ==> Full(build, batchSize, maxChars, chunks[|chunks| - 1], chunk)
    ensures LegalSplit(build, batchSize, maxChars, chunks + [chunk], done + chunk)
    ensures Greedy(build, batchSize, maxChars, chunks + [chunk])
  {
    FlattenAppend(chunks, chunk);
  }

  /** Adding a candidate to the last chunk while it stays legal. */
  lemma GrowChunk<T>(build: seq<T> -> string, batchSize: nat, maxChars: int, chunks: seq<seq<T>>, current: seq<T>,
                     done: seq<T>, item: T)
    requires LegalSplit(build, batchSize, maxChars, chunks + [current], done) && Greedy(build, batchSize, maxChars, chunks + [current])
    requires current != [] && Legal(build, batchSize, maxChars, current + [item])
    ensures LegalSplit(build, batchSize, maxChars, chunks + [current + [item]], done + [item])
    ensures Greedy(build, batchSize, maxChars, chunks + [current + [item]])
  {
    FlattenAppend(chunks, current);
    FlattenAppend(chunks, current + [item]);
    var grown := chunks + [current + [item]];
    forall c | c in grown ensures Legal(build, batchSize, maxChars, c) {
      if c in chunks { assert c in chunks + [current]; }
    }
    forall i, j | 0 <= i && j == i + 1 < |grown| ensures Full(build, batchSize, maxChars, grown[i], grown[j]) {
      assert Full(build, batchSize, maxChars, (chunks + [current])[i], (chunks + [current])[j]);
    }
  }

  /** The chunks so far, the one being filled included. */
  function WithCurrent<T>(chunks: seq<seq<T>>, current: seq<T>): seq<seq<T>> {
    if current == [] then chunks else chunks + [current]
  }

  method PackConsolidationChunks<T>(items: seq<T>, batchSize: nat, maxChars: int, build: seq<T> -> string)
    returns (chunks: seq<seq<T>>, warnings: seq<T>)
    requires batchSize >= 1
    ensures LegalSplit(build, batchSize, maxChars, chunks, items)
    ensures Greedy(build, batchSize, maxChars, chunks)
    ensures warnings == Oversized(build, maxChars, chunks)
  {
    if maxChars <= 0 {
      chunks := FixedStride(items, batchSize, maxChars, build);
      warnings := [];
      NoneOversized(build, maxChars, chunks);
      return;
    }
    chunks, warnings := [], [];
    var current: seq<T> := [];
    for i := 0 to |items|
      invariant LegalSplit(build, batchSize, maxChars, WithCurrent(chunks, current), items[..i])
      invariant Greedy(build, batchSize, maxChars, WithCurrent(chunks, current))
      invariant warnings == Oversized(build, maxChars, WithCurrent(chunks, current))
      invariant current == [] ==> chunks == []
    {
      var item := items[i];
      assert items[..i + 1] == items[..i] + [item];
      if current == [] {
        StartChunk(build, batchSize, maxChars, chunks, items[..i], [item]);
        current := [item];
        if |build(current)| > maxChars { warnings := warnings + [item]; }
      } else {
        var tentative := current + [item];
        if |tentative| <= batchSize && |build(tentative)| <= maxChars {
          GrowChunk(build, batchSize, maxChars, chunks, current, items[..i], item);
          SameOversized(build, maxChars, chunks, current, tentative);
          current := tentative;
        } else {
          assert (chunks + [current])[|chunks|] == current;
          StartChunk(build, batchSize, maxChars, chunks + [current], items[..i], [item]);
          OversizedAppend(build, maxChars, chunks + [current], [item]);
          chunks := chunks + [current];
          current := [item];
          if |build(current)| > maxChars { warnings := warnings + [item]; }
        }
      }
    }
    assert items[..|items|] == items;
    if current != [] {
      chunks := chunks + [current];
    }
  }

  lemma SameOversized<T>(build: seq<T> -> string, maxChars: int, chunks: seq<seq<T>>, c: seq<T>, d: seq<T>)
    requires c != [] && d != [] && c[0] == d[0]
    ensures Oversized(build, maxChars, chunks + [c]) == Oversized(build, maxChars, chunks + [d])
  {
    OversizedAppend(build, maxChars, chunks, c);
    OversizedAppend(build, maxChars, chunks, d);
  }

  /** With the length cap off: slices of the batch size. */
  method FixedStride<T>(items: seq<T>, batchSize: nat, maxChars: int,
                        build: seq<T> -> string) returns (chunks: seq<seq<T>>)
    requires batchSize >= 1 && maxChars <= 0
    ensures LegalSplit(build, batchSize, maxChars, chunks, items)
    ensures Greedy(build, batchSize, maxChars, chunks)
  {
    chunks := [];
    var start := 0;
    ghost var done := 0;
    while start < |items|
      invariant 0 <= start && done == if start <= |items| then start else |items|
      invariant LegalSplit(build, batchSize, maxChars, chunks, items[..done])
      invariant start < |items| && chunks != [] ==> |chunks[|chunks| - 1]| == batchSize
      invariant Greedy(build, batchSize, maxChars, chunks)
      decreases |items| - start
    {
      var stop := if start + batchSize <= |items| then start + batchSize else |items|;
      var chunk := items[start..stop];
      StartChunk(build, batchSize, maxChars, chunks, items[..done], chunk);
      assert items[..done] + chunk == items[..stop];
      chunks := chunks + [chunk];
      start, done := start + batchSize, stop;
    }
    assert items[..done] == items;
  }

  lemma {:induction false} NoneOversized<T>(build: seq<T> -> string, maxChars: int, chunks: seq<seq<T>>)
    requires maxChars <= 0
    ensures Oversized(build, maxChars, chunks) == []
  {
    if chunks != [] { NoneOversized(build, maxChars, chunks[1..]); }
  }

  // ----- Greedy packing is optimal

  /** A prompt never gets longer when candidates are dropped from either end. */
  ghost predicate ShrinksWithChunk<T(!new)>(build: seq<T> -> string) {
    forall c: seq<T>, i, j :: 0 <= i < j <= |c| ==> |build(c[i..j])| <= |build(c)|
  }

  lemma LegalSubchunk<T(!new)>(build: seq<T> -> string, batchSize: nat, maxChars: int, c: seq<T>, i: nat, j: nat)
    requires ShrinksWithChunk(build) && Legal(build, batchSize, maxChars, c) && i < j <= |c|
    ensures Legal(build, batchSize, maxChars, c[i..j])
  {
  }

  /** The first chunk is a prefix of the items, the others split the rest. */
  lemma Peel<T>(build: seq<T> -> string, batchSize: nat, maxChars: int, chunks: seq<seq<T>>, items: seq<T>)
    requires LegalSplit(build, batchSize, maxChars, chunks, items)
    ensures items != [] ==> chunks != []
    ensures chunks != [] ==>
              && 0 < |chunks[0]| <= |items| && chunks[0] == items[..|chunks[0]|]
              && Legal(build, batchSize, maxChars, chunks[0])
              && LegalSplit(build, batchSize, maxChars, chunks[1..], items[|chunks[0]|..])
  {
    if chunks != [] {
      assert chunks[0] in chunks;
    }
  }

  /** Greedy stays ahead: if what it has left is a suffix of what another split has left,
      it needs no more chunks. */
  lemma {:induction false} GreedyStaysAhead<T(!new)>(build: seq<T> -> string, batchSize: nat, maxChars: int,
                                               greedy: seq<seq<T>>, other: seq<seq<T>>, items: seq<T>, skip: nat)
    requires ShrinksWithChunk(build)
    requires skip <= |items|
    requires LegalSplit(build, batchSize, maxChars, other, items)
    requires LegalSplit(build, batchSize, maxChars, greedy, items[skip..]) && Greedy(build, batchSize, maxChars, greedy)
    ensures |greedy| <= |other|
    decreases |greedy|
  {
    if greedy != [] {
      Peel(build, batchSize, maxChars, greedy, items[skip..]);
      Peel(build, batchSize, maxChars, other, items);
      var g, o := greedy[0], other[0];
      var items' := items[|o|..];
      if skip + |g| < |o| { OvertakenHadRoom(build, batchSize, maxChars, greedy, o, items, skip); }
      assert items'[skip + |g| - |o|..] == items[skip..][|g|..];
      GreedyStaysAhead(build, batchSize, maxChars, greedy[1..], other[1..], items', skip + |g| - |o|);
    }
  }

  /** If the other split's first chunk reaches past greedy's, greedy's could have taken one more. */
  lemma OvertakenHadRoom<T(!new)>(build: seq<T> -> string, batchSize: nat, maxChars: int, greedy: seq<seq<T>>,
                           o: seq<T>, items: seq<T>, skip: nat)
    requires ShrinksWithChunk(build) && greedy != [] && skip <= |items|
    requires Legal(build, batchSize, maxChars, o) && |o| <= |items| && o == items[..|o|]
    requires LegalSplit(build, batchSize, maxChars, greedy, items[skip..])
    requires skip + |greedy[0]| < |o|
    ensures |greedy| > 1 && !Full(build, batchSize, maxChars, greedy[0], greedy[1])
  {
    var g, rest := greedy[0], greedy[1..];
    assert Flatten(greedy) == g + Flatten(rest);
    assert Flatten(rest) == items[skip + |g|..];
    if |rest| > 0 {
      assert Flatten(rest) == rest[0] + Flatten(rest[1..]);
      assert greedy[1] in greedy && rest[0] == greedy[1];
      assert greedy[1][0] == Flatten(rest)[0] == items[skip + |g|];
      assert g == items[skip..skip + |g|];
      assert g + [greedy[1][0]] == o[skip..skip + |g| + 1];
      LegalSubchunk(build, batchSize, maxChars, o, skip, skip + |g| + 1);
    }
  }

  /** No order-preserving split into legal chunks has fewer chunks than the packing. */
  lemma PackingOptimal<T(!new)>(build: seq<T> -> string, batchSize: nat, maxChars: int,
                                packed: seq<seq<T>>, other: seq<seq<T>>, items: seq<T>)
    requires ShrinksWithChunk(build)
    requires LegalSplit(build, batchSize, maxChars, packed, items) && Greedy(build, batchSize, maxChars, packed)
    requires LegalSplit(build, batchSize, maxChars, other, items)
    ensures |packed| <= |other|
  {
    assert items[0..] == items;
    GreedyStaysAhead(build, batchSize, maxChars, packed, other, items, 0);
  }
}
