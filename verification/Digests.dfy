/**
 What the digests that gate the model calls tell apart. They join texts with bars and colons,
 so they are exact where ids, titles and contents hold none of those, and only there.
 */
module Digests {
  import opened Tables
  import opened Text
  import opened TextOrder
  import opened Topics
  import opened TopicFixedPoint
  import opened Reconcile
  import SceneCache

  // ----- Joined texts

  ghost predicate FreeOf(s: string, c: char) {
    forall k :: 0 <= k < |s| ==> s[k] != c
  }

  ghost predicate AllFreeOf(parts: seq<string>, c: char) {
    forall k :: 0 <= k < |parts| ==> FreeOf(parts[k], c)
  }

  /** The first `c` in a text tells where the part before it ends. */
  lemma SplitUnique(x: string, s: string, y: string, t: string, c: char)
    requires FreeOf(x, c) && FreeOf(y, c) && x + [c] + s == y + [c] + t
    ensures x == y && s == t
  {
    var a, b := x + [c] + s, y + [c] + t;
    assert a[|x|] == c && forall k :: 0 <= k < |x| ==> a[k] != c;
    assert b[|y|] == c && forall k :: 0 <= k < |y| ==> b[k] != c;
    assert |x| == |y|;
    assert x == a[..|x|] && y == b[..|y|] && s == a[|x| + 1..] && t == b[|y| + 1..];
  }

  lemma {:induction false} JoinHas(parts: seq<string>)
    requires |parts| >= 2
    ensures Join(parts, "|") == parts[0] + ['|'] + Join(parts[1..], "|")
  {
    assert "|" == ['|'];
  }

  lemma JoinHasBar(parts: seq<string>)
    requires |parts| >= 2
    ensures !FreeOf(Join(parts, "|"), '|')
  {
    JoinHas(parts);
    assert Join(parts, "|")[|parts[0]|] == '|';
  }

  /** Parts free of bars can be read off their joined text. */
  lemma {:induction false} JoinInjective(a: seq<string>, b: seq<string>)
    requires a != [] && b != [] && AllFreeOf(a, '|') && AllFreeOf(b, '|') && Join(a, "|") == Join(b, "|")
    ensures a == b
    decreases |a|
  {
    if |a| == 1 && |b| == 1 {
      assert a == [a[0]] && b == [b[0]];
    } else if |a| == 1 {
      JoinHasBar(b);
    } else if |b| == 1 {
      JoinHasBar(a);
    } else {
      JoinHas(a);
      JoinHas(b);
      SplitUnique(a[0], Join(a[1..], "|"), b[0], Join(b[1..], "|"), '|');
      JoinInjective(a[1..], b[1..]);
      assert a == [a[0]] + a[1..] && b == [b[0]] + b[1..];
    }
  }

  // ----- Member texts

  /** The ids and contents a digest of these members is made of hold no separator. */
  ghost predicate Plain(mem: Memory, ids: seq<string>) {
    forall id <- ids :: IsActive(mem, id) ==> FreeOf(id, '|') && FreeOf(id, ':') && FreeOf(mem.atoms[id].content, '|')
  }

  function MemberText(mem: Memory, id: string): string {
    if IsActive(mem, id) then id + ":" + mem.atoms[id].content else ""
  }

  lemma {:induction false} MemberTextsAre(mem: Memory, ids: seq<string>)
    ensures var active, texts := ActiveIds(mem, ids), MemberTexts(mem, ids);
            |texts| == |active| && forall k :: 0 <= k < |active| ==> texts[k] == MemberText(mem, active[k])
  {
    if ids != [] { MemberTextsAre(mem, ids[1..]); }
  }

  lemma {:induction false} ActiveSorted(mem: Memory, ids: seq<string>)
    requires Sorted(ids)
    ensures Sorted(ActiveIds(mem, ids))
  {
    if ids != [] {
      ActiveSorted(mem, ids[1..]);
      var rest := ActiveIds(mem, ids[1..]);
      forall k | 0 <= k < |rest| ensures Before(ids[0], rest[k]) {
        assert rest[k] in ids[1..];
        var j :| 0 <= j < |ids[1..]| && ids[1..][j] == rest[k];
        assert ids[j + 1] == rest[k];
      }
    }
  }

  /** The same active members with the same contents, in whatever order they are listed. */
  ghost predicate SameTold(mem: Memory, ids: seq<string>, mem': Memory, ids': seq<string>) {
    forall id :: && (id in ids && IsActive(mem, id) <==> id in ids' && IsActive(mem', id))
                 && (id in ids && IsActive(mem, id) ==> mem'.atoms[id].content == mem.atoms[id].content)
  }

  lemma SortedActiveIs(mem: Memory, ids: seq<string>, active: seq<string>)
    requires Distinct(ids) && active == ActiveIds(mem, SortIds(ids))
    ensures Sorted(active) && forall id :: id in active <==> id in ids && IsActive(mem, id)
  {
    SortIdsSorts(ids);
    ActiveSorted(mem, SortIds(ids));
    SortKeepsMembers(ids);
  }

  lemma SameToldSameTexts(mem: Memory, ids: seq<string>, mem': Memory, ids': seq<string>)
    requires Distinct(ids) && Distinct(ids') && SameTold(mem, ids, mem', ids')
    ensures MemberTexts(mem, SortIds(ids)) == MemberTexts(mem', SortIds(ids'))
  {
    var x, y := ActiveIds(mem, SortIds(ids)), ActiveIds(mem', SortIds(ids'));
    SortedActiveIs(mem, ids, x);
    SortedActiveIs(mem', ids', y);
    SortedListingUnique(x, y);
    MemberTextsAre(mem, SortIds(ids));
    MemberTextsAre(mem', SortIds(ids'));
    forall k | 0 <= k < |x| ensures MemberText(mem, x[k]) == MemberText(mem', y[k]) {
      assert x[k] in x;
    }
  }

  lemma MemberTextUnique(mem: Memory, id: string, mem': Memory, id': string)
    requires IsActive(mem, id) && IsActive(mem', id') && FreeOf(id, ':') && FreeOf(id', ':')
    requires MemberText(mem, id) == MemberText(mem', id')
    ensures id == id' && mem.atoms[id].content == mem'.atoms[id'].content
  {
    assert ":" == [':'];
    SplitUnique(id, mem.atoms[id].content, id', mem'.atoms[id'].content, ':');
  }

  lemma SameTextsSameTold(mem: Memory, ids: seq<string>, mem': Memory, ids': seq<string>)
    requires Distinct(ids) && Distinct(ids') && Plain(mem, ids) && Plain(mem', ids')
    requires MemberTexts(mem, SortIds(ids)) == MemberTexts(mem', SortIds(ids'))
    ensures SameTold(mem, ids, mem', ids')
  {
    var x, y := ActiveIds(mem, SortIds(ids)), ActiveIds(mem', SortIds(ids'));
    SortedActiveIs(mem, ids, x);
    SortedActiveIs(mem', ids', y);
    MemberTextsAre(mem, SortIds(ids));
    MemberTextsAre(mem', SortIds(ids'));
    forall k | 0 <= k < |x| ensures x[k] == y[k] && mem.atoms[x[k]].content == mem'.atoms[y[k]].content {
      assert x[k] in x && y[k] in y;
      assert MemberText(mem, x[k]) == MemberText(mem', y[k]);
      MemberTextUnique(mem, x[k], mem', y[k]);
    }
    assert x == y;
  }

  /** A member's text is not empty, and free of bars. */
  lemma TextsArePlain(mem: Memory, ids: seq<string>, texts: seq<string>)
    requires Plain(mem, ids) && texts == MemberTexts(mem, SortIds(ids))
    ensures AllFreeOf(texts, '|') && forall k :: 0 <= k < |texts| ==> texts[k] != ""
  {
    var active := ActiveIds(mem, SortIds(ids));
    MemberTextsAre(mem, SortIds(ids));
    SortKeepsMembers(ids);
    forall k | 0 <= k < |texts| ensures FreeOf(texts[k], '|') && texts[k] != "" {
      var id := active[k];
      assert id in active;
      TextIsPlain(mem, ids, id, texts[k]);
    }
  }

  lemma TextIsPlain(mem: Memory, ids: seq<string>, id: string, text: string)
    requires Plain(mem, ids) && id in ids && IsActive(mem, id) && text == MemberText(mem, id)
    ensures FreeOf(text, '|') && text != ""
  {
    assert text[|id|] == ':';
  }

  /** Texts that are not empty can be told from none. */
  lemma JoinTold(a: seq<string>, b: seq<string>)
    requires AllFreeOf(a, '|') && AllFreeOf(b, '|') && Join(a, "|") == Join(b, "|")
    requires (forall k :: 0 <= k < |a| ==> a[k] != "") && (forall k :: 0 <= k < |b| ==> b[k] != "")
    ensures a == b
  {
    if a == [] || b == [] {
      if a != [] { JoinNotEmpty(a); }
      if b != [] { JoinNotEmpty(b); }
    } else {
      JoinInjective(a, b);
    }
  }

  lemma JoinNotEmpty(a: seq<string>)
    requires a != [] && a[0] != ""
    ensures Join(a, "|") != ""
  {
  }

  // ----- The scene digest

  function SceneInput(mem: Memory, kind: SceneKind, ids: seq<string>): string {
    KindName(kind) + "|" + Join(MemberTexts(mem, SortIds(ids)), "|")
  }

  lemma KindSplit(kind: SceneKind, s: string, kind': SceneKind, t: string)
    requires KindName(kind) + "|" + s == KindName(kind') + "|" + t
    ensures kind == kind' && s == t
  {
    KindPlain(kind);
    KindPlain(kind');
    assert "|" == ['|'];
    SplitUnique(KindName(kind), s, KindName(kind'), t, '|');
  }

  lemma KindPlain(kind: SceneKind)
    ensures KindName(kind) == (if kind.Episode? then "episode" else "topic") && FreeOf(KindName(kind), '|')
  {
  }

  /** For a digest without collisions: two scenes have one content hash if and only if they have
      one kind and the same active members with the same contents, however listed. */
  lemma SceneHashTells(env: Env, mem: Memory, kind: SceneKind, ids: seq<string>, mem': Memory, kind': SceneKind,
                       ids': seq<string>)
    requires SceneCache.Injective(env.sha) && Distinct(ids) && Distinct(ids') && Plain(mem, ids) && Plain(mem', ids')
    ensures SceneHash(env, mem, kind, ids) == SceneHash(env, mem', kind', ids')
            <==> kind == kind' && SameTold(mem, ids, mem', ids')
  {
    var texts, texts' := MemberTexts(mem, SortIds(ids)), MemberTexts(mem', SortIds(ids'));
    if SceneHash(env, mem, kind, ids) == SceneHash(env, mem', kind', ids') {
      assert SceneInput(mem, kind, ids) == SceneInput(mem', kind', ids');
      KindSplit(kind, Join(texts, "|"), kind', Join(texts', "|"));
      TextsArePlain(mem, ids, texts);
      TextsArePlain(mem', ids', texts');
      JoinTold(texts, texts');
      SameTextsSameTold(mem, ids, mem', ids');
    }
    if SameTold(mem, ids, mem', ids') { SameToldSameTexts(mem, ids, mem', ids'); }
  }

  /** The order in which members are listed, and members that are no longer active, never matter. */
  lemma SceneHashIgnoresOrder(env: Env, mem: Memory, kind: SceneKind, ids: seq<string>, mem': Memory, ids': seq<string>)
    requires Distinct(ids) && Distinct(ids') && SameTold(mem, ids, mem', ids')
    ensures SceneHash(env, mem, kind, ids) == SceneHash(env, mem', kind, ids')
  {
    SameToldSameTexts(mem, ids, mem', ids');
  }

  /** Where a content holds a bar the digest can be the same for different members: one atom "a"
      that says "x|b:y", or atoms "a" and "b" that say "x" and "y". */
  lemma BarsAreAmbiguous(env: Env, mem: Memory, mem': Memory, kind: SceneKind)
    requires IsActive(mem, "a") && mem.atoms["a"].content == "x|b:y"
    requires IsActive(mem', "a") && mem'.atoms["a"].content == "x" && IsActive(mem', "b") && mem'.atoms["b"].content == "y"
    ensures SceneHash(env, mem, kind, ["a"]) == SceneHash(env, mem', kind, ["a", "b"])
  {
    assert SortIds(["a"]) == ["a"] by { assert SortIds([]) == []; }
    assert SortIds(["a", "b"]) == ["a", "b"] by {
      assert ["a", "b"][1..] == ["b"] && ["b"][1..] == [];
      assert SortIds(["b"]) == ["b"] && Before("a", "b");
    }
    OneText(mem);
    TwoTexts(mem');
    assert Join(["a:x|b:y"], "|") == "a:x|b:y" && Join(["a:x", "b:y"], "|") == "a:x" + "|" + "b:y" == "a:x|b:y" by {
      assert ["a:x", "b:y"][1..] == ["b:y"];
    }
  }

  lemma OneText(mem: Memory)
    requires IsActive(mem, "a") && mem.atoms["a"].content == "x|b:y"
    ensures MemberTexts(mem, ["a"]) == ["a:x|b:y"]
  {
    assert MemberTexts(mem, ["a"][1..]) == [];
    assert "a" + ":" + "x|b:y" == "a:x|b:y";
  }

  lemma TwoTexts(mem: Memory)
    requires IsActive(mem, "a") && mem.atoms["a"].content == "x" && IsActive(mem, "b") && mem.atoms["b"].content == "y"
    ensures MemberTexts(mem, ["a", "b"]) == ["a:x", "b:y"]
  {
    assert ["a", "b"][1..] == ["b"] && ["b"][1..] == [];
    assert MemberTexts(mem, []) == [];
    assert "a" + ":" + "x" == "a:x" && "b" + ":" + "y" == "b:y";
    assert MemberTexts(mem, ["b"]) == ["b:y"];
    assert ["a:x"] + ["b:y"] == ["a:x", "b:y"];
  }

  // ----- The core digest

  /** What the digest takes of one scene. */
  datatype Told = Told(kind: SceneKind, title: string, texts: seq<string>)

  function ToldOf(db: Db, id: string): Told
    requires id in db.scenes
  {
    Told(db.scenes[id].kind, db.scenes[id].title, MemberTexts(db.mem, SortIds(db.scenes[id].atomIds)))
  }

  function AllTold(db: Db, ids: seq<string>): (told: seq<Told>)
    requires forall id :: id in ids ==> id in db.scenes
    ensures |told| == |ids| && forall k :: 0 <= k < |ids| ==> told[k] == ToldOf(db, ids[k])
  {
    if ids == [] then [] else [ToldOf(db, ids[0])] + AllTold(db, ids[1..])
  }

  ghost predicate PlainTold(t: Told) {
    FreeOf(t.title, '|') && AllFreeOf(t.texts, '|') && forall k :: 0 <= k < |t.texts| ==> t.texts[k] != ""
  }

  ghost predicate AllPlainTold(told: seq<Told>) {
    forall k :: 0 <= k < |told| ==> PlainTold(told[k])
  }

  /** One scene as a list of parts between bars; a scene without members leaves one empty part. */
  function Parts(t: Told): seq<string> {
    [KindName(t.kind), t.title] + if t.texts == [] then [""] else t.texts
  }

  function AllParts(told: seq<Told>): seq<string> {
    if told == [] then []
    else if |told| == 1 then Parts(told[0])
    else Parts(told[0]) + [""] + AllParts(told[1..])
  }

  lemma {:induction false} JoinTwo(a: seq<string>, b: seq<string>)
    requires a != [] && b != []
    ensures Join(a + b, "|") == Join(a, "|") + "|" + Join(b, "|")
  {
    if |a| == 1 {
      assert (a + b)[1..] == b;
    } else {
      JoinTwo(a[1..], b);
      assert (a + b)[1..] == a[1..] + b;
    }
  }

  lemma JoinOne(s: string)
    ensures Join([s], "|") == s
  {
  }

  lemma PartsJoin(t: Told)
    ensures Join(Parts(t), "|") == KindName(t.kind) + "|" + t.title + "|" + Join(t.texts, "|")
  {
    var body := if t.texts == [] then [""] else t.texts;
    var head := [KindName(t.kind), t.title];
    JoinTwo(head, body);
    JoinTwo([KindName(t.kind)], [t.title]);
    assert [KindName(t.kind)] + [t.title] == head;
    JoinOne(KindName(t.kind));
    JoinOne(t.title);
    JoinOne("");
  }

  lemma FirstCorePart(db: Db, ids: seq<string>)
    requires ids != [] && forall id :: id in ids ==> id in db.scenes
    ensures CoreParts(db, ids) == [Join(Parts(ToldOf(db, ids[0])), "|")] + CoreParts(db, ids[1..])
  {
    PartsJoin(ToldOf(db, ids[0]));
  }

  lemma {:induction false} CorePartsAre(db: Db, ids: seq<string>)
    requires forall id :: id in ids ==> id in db.scenes
    ensures |CoreParts(db, ids)| == |ids|
    ensures forall k :: 0 <= k < |ids| ==> CoreParts(db, ids)[k] == Join(Parts(ToldOf(db, ids[k])), "|")
  {
    if ids != [] {
      FirstCorePart(db, ids);
      CorePartsAre(db, ids[1..]);
      var rest := CoreParts(db, ids[1..]);
      forall k | 0 <= k < |ids| ensures CoreParts(db, ids)[k] == Join(Parts(ToldOf(db, ids[k])), "|") {
        if k > 0 { assert CoreParts(db, ids)[k] == rest[k - 1] && ids[k] == ids[1..][k - 1]; }
      }
    }
  }

  lemma {:induction false} CoreInputIs(parts: seq<string>, told: seq<Told>)
    requires |parts| == |told| && forall k :: 0 <= k < |told| ==> parts[k] == Join(Parts(told[k]), "|")
    ensures Join(parts, "||") == Join(AllParts(told), "|")
  {
    if |told| > 1 {
      CoreInputIs(parts[1..], told[1..]);
      JoinTwo(Parts(told[0]) + [""], AllParts(told[1..]));
      JoinTwo(Parts(told[0]), [""]);
      JoinOne("");
      assert Parts(told[0]) + [""] + AllParts(told[1..]) == (Parts(told[0]) + [""]) + AllParts(told[1..]);
      assert "|" + "" + "|" == "||";
    }
  }

  ghost predicate EndsTexts(s: seq<string>) { s == [] || s[0] == "" }

  /** Texts that are not empty end where an empty part or nothing follows. */
  lemma {:induction false} TextsSplit(x: seq<string>, s: seq<string>, y: seq<string>, t: seq<string>)
    requires (forall k :: 0 <= k < |x| ==> x[k] != "") && (forall k :: 0 <= k < |y| ==> y[k] != "")
    requires EndsTexts(s) && EndsTexts(t) && x + s == y + t
    ensures x == y && s == t
  {
    assert (x == [] ==> x + s == s) && (y == [] ==> y + t == t);
    assert (x != [] ==> (x + s)[0] == x[0]) && (y != [] ==> (y + t)[0] == y[0]);
    if x != [] && y != [] {
      assert (x + s)[1..] == x[1..] + s && (y + t)[1..] == y[1..] + t;
      TextsSplit(x[1..], s, y[1..], t);
      assert x == [x[0]] + x[1..] && y == [y[0]] + y[1..];
    }
  }

  function Body(t: Told): seq<string> {
    if t.texts == [] then [""] else t.texts
  }

  function After(told: seq<Told>): seq<string> {
    if |told| <= 1 then [] else [""] + AllParts(told[1..])
  }

  lemma PartsSplit(told: seq<Told>)
    requires told != []
    ensures AllParts(told) == [KindName(told[0].kind), told[0].title] + (Body(told[0]) + After(told))
  {
  }

  lemma HeadSplit(p: string, q: string, r: seq<string>, p': string, q': string, r': seq<string>)
    requires [p, q] + r == [p', q'] + r'
    ensures p == p' && q == q' && r == r'
  {
    var a, b := [p, q] + r, [p', q'] + r';
    assert a[0] == p && b[0] == p' && a[1] == q && b[1] == q' && a[2..] == r && b[2..] == r';
  }

  lemma BodySplit(x: Told, s: seq<string>, y: Told, t: seq<string>)
    requires PlainTold(x) && PlainTold(y) && EndsTexts(s) && EndsTexts(t) && Body(x) + s == Body(y) + t
    ensures x.texts == y.texts && s == t
  {
    assert (Body(x) + s)[0] == Body(x)[0] && (Body(y) + t)[0] == Body(y)[0];
    if x.texts == [] {
      assert y.texts == [];
      assert (Body(x) + s)[1..] == s && (Body(y) + t)[1..] == t;
    } else {
      assert y.texts != [];
      TextsSplit(x.texts, s, y.texts, t);
    }
  }

  lemma FirstTold(a: seq<Told>, b: seq<Told>)
    requires a != [] && b != [] && PlainTold(a[0]) && PlainTold(b[0]) && AllParts(a) == AllParts(b)
    ensures a[0] == b[0] && After(a) == After(b)
  {
    PartsSplit(a);
    PartsSplit(b);
    HeadSplit(KindName(a[0].kind), a[0].title, Body(a[0]) + After(a), KindName(b[0].kind), b[0].title, Body(b[0]) + After(b));
    KindPlain(a[0].kind);
    KindPlain(b[0].kind);
    BodySplit(a[0], After(a), b[0], After(b));
  }

  lemma {:induction false} ToldInjective(a: seq<Told>, b: seq<Told>)
    requires AllPlainTold(a) && AllPlainTold(b) && AllParts(a) == AllParts(b)
    ensures a == b
  {
    if a != [] && b != [] {
      FirstTold(a, b);
      assert a == [a[0]] + a[1..] && b == [b[0]] + b[1..];
      if |a| > 1 && |b| > 1 {
        assert After(a)[1..] == AllParts(a[1..]) && After(b)[1..] == AllParts(b[1..]);
        ToldInjective(a[1..], b[1..]);
      }
    }
  }

  lemma {:induction false} AllPartsPlain(told: seq<Told>)
    requires AllPlainTold(told)
    ensures AllFreeOf(AllParts(told), '|') && (told != [] ==> |AllParts(told)| >= 3)
  {
    if told != [] {
      KindPlain(told[0].kind);
      if |told| > 1 { AllPartsPlain(told[1..]); }
    }
  }

  lemma ToldTexts(a: seq<Told>, b: seq<Told>)
    requires AllPlainTold(a) && AllPlainTold(b) && Join(AllParts(a), "|") == Join(AllParts(b), "|")
    ensures a == b
  {
    AllPartsPlain(a);
    AllPartsPlain(b);
    if a == [] || b == [] {
      if a != [] { JoinHasBar(AllParts(a)); }
      if b != [] { JoinHasBar(AllParts(b)); }
    } else {
      JoinInjective(AllParts(a), AllParts(b));
      ToldInjective(a, b);
    }
  }

  /** The live scenes in id order. */
  function CoreScenes(db: Db): (ids: seq<string>)
    ensures forall id :: id in ids <==> id in db.sceneRows && IsLive(db, id)
    ensures forall k :: 0 <= k < |ids| ==> ids[k] in db.scenes
  {
    SortKeepsMembers(LiveIds(db, db.sceneRows));
    var ids := SortIds(LiveIds(db, db.sceneRows));
    assert forall k :: 0 <= k < |ids| ==> ids[k] in ids;
    ids
  }

  /** Titles without bars, and members listed once with plain ids and contents. */
  ghost predicate PlainScenes(db: Db) {
    forall id :: IsLive(db, id) ==> FreeOf(db.scenes[id].title, '|') && Plain(db.mem, db.scenes[id].atomIds) && Distinct(db.scenes[id].atomIds)
  }

  lemma PlainScenesTold(db: Db, ids: seq<string>)
    requires PlainScenes(db) && ids == CoreScenes(db)
    ensures AllPlainTold(AllTold(db, ids))
  {
    forall k | 0 <= k < |ids| ensures PlainTold(AllTold(db, ids)[k]) {
      assert ids[k] in ids;
      TextsArePlain(db.mem, db.scenes[ids[k]].atomIds, MemberTexts(db.mem, SortIds(db.scenes[ids[k]].atomIds)));
    }
  }

  /** The k-th live scenes of two stores, in id order, are told alike. */
  ghost predicate ToldAlike(db: Db, ids: seq<string>, d: Db, ids': seq<string>, k: int) {
    && 0 <= k < |ids| && k < |ids'| && ids[k] in db.scenes && ids'[k] in d.scenes
    && var x, y := db.scenes[ids[k]], d.scenes[ids'[k]];
    x.kind == y.kind && x.title == y.title && SameTold(db.mem, x.atomIds, d.mem, y.atomIds)
  }

  lemma CoreHashIs(env: Env, db: Db, told: seq<Told>)
    requires told == AllTold(db, CoreScenes(db))
    ensures CoreHash(env, db) == (env.sha)(Join(AllParts(told), "|"))
  {
    var ids := CoreScenes(db);
    CorePartsAre(db, ids);
    CoreInputIs(CoreParts(db, ids), told);
  }

  lemma AlikeExactly(db: Db, ids: seq<string>, d: Db, ids': seq<string>, k: nat)
    requires PlainScenes(db) && PlainScenes(d) && ids == CoreScenes(db) && ids' == CoreScenes(d) && k < |ids| && k < |ids'|
    ensures ToldOf(db, ids[k]) == ToldOf(d, ids'[k]) <==> ToldAlike(db, ids, d, ids', k)
  {
    var a, b := ids[k], ids'[k];
    assert a in ids && b in ids';
    var x, y := db.scenes[a], d.scenes[b];
    if ToldOf(db, a) == ToldOf(d, b) { SameTextsSameTold(db.mem, x.atomIds, d.mem, y.atomIds); }
    if SameTold(db.mem, x.atomIds, d.mem, y.atomIds) { SameToldSameTexts(db.mem, x.atomIds, d.mem, y.atomIds); }
  }

  /** As many scenes, and each told alike. */
  ghost predicate AllToldAlike(db: Db, ids: seq<string>, d: Db, ids': seq<string>) {
    |ids| == |ids'| && forall k :: 0 <= k < |ids| ==> ToldAlike(db, ids, d, ids', k)
  }

  lemma ToldListsAlike(db: Db, ids: seq<string>, d: Db, ids': seq<string>, a: seq<Told>, b: seq<Told>)
    requires |ids| == |a| && |ids'| == |b|
    requires forall k :: 0 <= k < |a| && k < |b| ==> (a[k] == b[k] <==> ToldAlike(db, ids, d, ids', k))
    ensures a == b <==> AllToldAlike(db, ids, d, ids')
  {
    if AllToldAlike(db, ids, d, ids') {
      forall k | 0 <= k < |a| ensures a[k] == b[k] { assert ToldAlike(db, ids, d, ids', k); }
    }
  }

  /** For a digest without collisions: two stores have one core hash if and only if their live
      scenes, taken in id order, have the same kinds and titles and the same active members with
      the same contents. Summaries, and the ids of the scenes, do not matter. */
  lemma CoreHashTells(env: Env, db: Db, d: Db)
    requires SceneCache.Injective(env.sha) && PlainScenes(db) && PlainScenes(d)
    ensures CoreHash(env, db) == CoreHash(env, d) <==> AllToldAlike(db, CoreScenes(db), d, CoreScenes(d))
  {
    var ids, ids' := CoreScenes(db), CoreScenes(d);
    var a, b := AllTold(db, ids), AllTold(d, ids');
    CoreHashIs(env, db, a);
    CoreHashIs(env, d, b);
    PlainScenesTold(db, ids);
    PlainScenesTold(d, ids');
    if CoreHash(env, db) == CoreHash(env, d) { ToldTexts(a, b); }
    forall k | 0 <= k < |a| && k < |b| ensures a[k] == b[k] <==> ToldAlike(db, ids, d, ids', k) {
      AlikeExactly(db, ids, d, ids', k);
    }
    ToldListsAlike(db, ids, d, ids', a, b);
  }
}
