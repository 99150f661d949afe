/** Flat documents, printed with markers and parsed back. */
module MarkdownDocs {
  import opened Common
  import opened Entities
  import opened Markdown

  /** A run of text; plain when it has no kind. */
  datatype Segment = Segment(kind: Option<Kind>, text: string)

  function Char(kind: Kind): char {
    match kind
    case Bold => '*'
    case Italic => '_'
    case Mono => '`'
  }

  /** The pass that strips the kind: 0, 1 or 2. */
  function Rank(kind: Kind): nat {
    match kind
    case Bold => 0
    case Italic => 1
    case Mono => 2
  }

  ghost predicate FreeOfMarks(t: string) {
    forall kind: Kind :: Char(kind) !in t
  }

  ghost predicate Flat(doc: seq<Segment>) {
    forall i :: 0 <= i < |doc| ==> FreeOfMarks(doc[i].text) && (doc[i].kind.Some? ==> doc[i].text != "")
  }

  /** A segment after the first `done` passes: earlier kinds have lost their markers. */
  function Shown(g: Segment, done: nat): string {
    if g.kind.Some? && Rank(g.kind.value) >= done then Mark(g.kind.value) + g.text + Mark(g.kind.value)
    else g.text
  }

  /** The document from segment `i` on, after `done` passes. */
  function Render(doc: seq<Segment>, i: nat, done: nat): string
    requires i <= |doc|
    decreases |doc| - i
  {
    if i == |doc| then "" else Shown(doc[i], done) + Render(doc, i + 1, done)
  }

  /** Where segment `i` starts after `done` passes. */
  function Start(doc: seq<Segment>, i: nat, done: nat): nat
    requires i <= |doc|
  {
    if i == 0 then 0 else Start(doc, i - 1, done) + |Shown(doc[i - 1], done)|
  }

  /** The text a user writes. */
  function Print(doc: seq<Segment>): string {
    Render(doc, 0, 0)
  }

  function PlainText(doc: seq<Segment>, i: nat): string
    requires i <= |doc|
    decreases |doc| - i
  {
    if i == |doc| then "" else doc[i].text + PlainText(doc, i + 1)
  }

  /** One entity per marked segment, in order, `at` being where segment `i` starts in the plain text. */
  function Expected(doc: seq<Segment>, i: nat, at: nat): seq<Entity>
    requires i <= |doc|
    decreases |doc| - i
  {
    if i == |doc| then []
    else
      (if doc[i].kind.Some? then [Entity(doc[i].kind.value, at, |doc[i].text|)] else [])
      + Expected(doc, i + 1, at + |doc[i].text|)
  }

  /** The entities of one kind from segment `i` on, placed in the text after `done` passes. */
  function OfKind(doc: seq<Segment>, i: nat, kind: Kind, done: nat): seq<Entity>
    requires i <= |doc|
    decreases |doc| - i
  {
    if i == |doc| then []
    else
      (if doc[i].kind == Some(kind) then [Entity(kind, Start(doc, i, done), |doc[i].text|)] else [])
      + OfKind(doc, i + 1, kind, done)
  }

  // ── cutting a printed text ─────────────────────────────────────────────────

  lemma AtAfter(h: string, s: string, m: string, i: nat)
    ensures At(h + s, |h| + i, m) == At(s, i, m)
  {
    if i + |m| <= |s| {
      assert (h + s)[|h| + i..|h| + i + |m|] == s[i..i + |m|];
    }
  }

  lemma {:induction false} FindAfter(h: string, s: string, m: string, from: nat)
    ensures var r := Find(s, m, from);
      Find(h + s, m, |h| + from) == if r.None? then None else Some(|h| + r.value)
    decreases |s| - from
  {
    AtAfter(h, s, m, from);
    if from + |m| <= |s| && !At(s, from, m) {
      FindAfter(h, s, m, from + 1);
    }
  }

  lemma NextMatchAfter(h: string, s: string, m: string, from: nat)
    ensures var r := NextMatch(s, m, from);
      NextMatch(h + s, m, |h| + from) == if r.None? then None else Some(Match(|h| + r.value.open, |h| + r.value.close))
  {
    hide Find, At;
    FindAfter(h, s, m, from);
    var open := Find(s, m, from);
    if open.Some? {
      FindAfter(h, s, m, open.value + |m| + 1);
    }
  }

  lemma SliceAfter(h: string, s: string, i: nat, j: nat)
    requires i <= j <= |s|
    ensures (h + s)[|h| + i..|h| + j] == s[i..j]
  {
  }

  /** Text before the cursor does not matter. */
  lemma {:induction false} ChopAfter(h: string, s: string, m: string, from: nat)
    requires m != "" && from <= |s|
    ensures Chop(h + s, m, |h| + from) == Chop(s, m, from)
    decreases |s| - from
  {
    hide Chop, NextMatch;
    NextMatchAfter(h, s, m, from);
    var x := NextMatch(s, m, from);
    if x.None? {
      ChopEnd(s, m, from);
      ChopEnd(h + s, m, |h| + from);
      SliceAfter(h, s, from, |s|);
      assert (h + s)[|h| + from..|h| + |s|] == (h + s)[|h| + from..] && s[from..|s|] == s[from..];
    } else {
      var open, close := x.value.open, x.value.close;
      ChopAfter(h, s, m, close + |m|);
      ChopStep(s, m, from, x.value);
      ChopStep(h + s, m, |h| + from, Match(|h| + open, |h| + close));
      SliceAfter(h, s, from, open);
      SliceAfter(h, s, open + |m|, close);
    }
  }

  /** The same pieces with `h` in front. */
  function Lead(h: string, ps: Pieces): Pieces {
    match ps
    case Tail(text) => Tail(h + text)
    case Piece(front, inner, next) => Piece(h + front, inner, next)
  }

  lemma NotAt(s: string, i: nat, kind: Kind)
    requires i < |s| && s[i] != Char(kind)
    ensures !At(s, i, Mark(kind))
  {
    var m := Mark(kind);
    assert m[0] == Char(kind);
    assert i + |m| <= |s| ==> s[i..i + |m|][0] == s[i];
  }

  lemma {:induction false} FindSkips(s: string, kind: Kind, from: nat, end: nat)
    requires from <= end <= |s| && forall i :: from <= i < end ==> s[i] != Char(kind)
    ensures Find(s, Mark(kind), from) == Find(s, Mark(kind), end)
    decreases end - from
  {
    if from < end {
      NotAt(s, from, kind);
      FindSkips(s, kind, from + 1, end);
    }
  }

  lemma NextMatchFree(h: string, s: string, kind: Kind)
    requires Char(kind) !in h
    ensures var r := NextMatch(s, Mark(kind), 0);
      NextMatch(h + s, Mark(kind), 0) == if r.None? then None else Some(Match(|h| + r.value.open, |h| + r.value.close))
  {
    hide Find, At;
    FindSkips(h + s, kind, 0, |h|);
    NextMatchAfter(h, s, Mark(kind), 0);
  }

  /** Text without the marker character only moves the first match. */
  lemma ChopFree(h: string, s: string, kind: Kind)
    requires Char(kind) !in h
    ensures Chop(h + s, Mark(kind), 0) == Lead(h, Chop(s, Mark(kind), 0))
  {
    hide Chop, NextMatch;
    var m, x := Mark(kind), NextMatch(s, Mark(kind), 0);
    NextMatchFree(h, s, kind);
    if x.None? {
      ChopEnd(s, m, 0);
      ChopEnd(h + s, m, 0);
      assert (h + s)[0..] == h + s[0..];
    } else {
      var open, close := x.value.open, x.value.close;
      ChopStep(s, m, 0, x.value);
      ChopStep(h + s, m, 0, Match(|h| + open, |h| + close));
      ChopAfter(h, s, m, close + |m|);
      assert (h + s)[0..|h| + open] == h + s[0..open];
      SliceAfter(h, s, open + |m|, close);
    }
  }

  /** A marked text in front is the first match. */
  lemma ChopMarked(t: string, s: string, kind: Kind)
    requires Char(kind) !in t && t != ""
    ensures Chop(Mark(kind) + t + Mark(kind) + s, Mark(kind), 0) == Piece("", t, Chop(s, Mark(kind), 0))
  {
    hide Chop, NextMatch;
    var m := Mark(kind);
    var whole, close := m + t + m + s, |m| + |t|;
    FirstIsMarked(t, s, kind);
    ChopStep(whole, m, 0, Match(0, close));
    assert whole == (m + t + m) + s;
    ChopAfter(m + t + m, s, m, 0);
    assert whole[0..0] == "" && whole[|m|..close] == t;
  }

  lemma FindHere(s: string, m: string, i: nat)
    requires At(s, i, m)
    ensures Find(s, m, i) == Some(i)
  {
  }

  lemma FirstIsMarked(t: string, s: string, kind: Kind)
    requires Char(kind) !in t && t != ""
    ensures NextMatch(Mark(kind) + t + Mark(kind) + s, Mark(kind), 0) == Some(Match(0, |Mark(kind)| + |t|))
  {
    hide Find;
    var m := Mark(kind);
    var whole, close := m + t + m + s, |m| + |t|;
    assert whole[0..|m|] == m && whole[close..close + |m|] == m;
    FindHere(whole, m, 0);
    FindHere(whole, m, close);
    forall i | |m| + 1 <= i < close
      ensures whole[i] != Char(kind)
    {
      assert whole[i] == t[i - |m|];
    }
    FindSkips(whole, kind, |m| + 1, close);
  }

  // ── one pass over a document ───────────────────────────────────────────────

  lemma StripFree(h: string, ps: Pieces)
    ensures Strip(Lead(h, ps)) == h + Strip(ps)
  {
    if ps.Piece? {
      assert (h + ps.front) + ps.inner + Strip(ps.next) == h + (ps.front + ps.inner + Strip(ps.next));
    }
  }

  lemma SpansFree(h: string, ps: Pieces, kind: Kind, base: nat)
    ensures Spans(Lead(h, ps), kind, base) == Spans(ps, kind, base + |h|)
  {
  }

  lemma RemovedFree(h: string, ps: Pieces, m: string, offset: int)
    ensures RemovedBefore(Lead(h, ps), m, offset) == RemovedBefore(ps, m, offset - |h|)
  {
  }

  lemma {:induction false} RemovedNone(ps: Pieces, m: string, offset: int)
    requires m != "" && offset <= 0
    ensures RemovedBefore(ps, m, offset) == 0
  {
    if ps.Piece? {
      RemovedNone(ps.next, m, offset - |ps.front| - |ps.inner| - 2 * |m|);
    }
  }

  /** The segment's text as it is when the pass of `kind` reaches it. */
  lemma ShownBy(g: Segment, kind: Kind)
    requires FreeOfMarks(g.text)
    ensures g.kind == Some(kind) ==>
      Shown(g, Rank(kind)) == Mark(kind) + g.text + Mark(kind) && Shown(g, Rank(kind) + 1) == g.text
    ensures g.kind != Some(kind) ==>
      Shown(g, Rank(kind)) == Shown(g, Rank(kind) + 1) && Char(kind) !in Shown(g, Rank(kind))
  {
    assert Char(kind) !in g.text;
    if g.kind.Some? && g.kind != Some(kind) {
      assert Char(kind) !in Mark(g.kind.value);
    }
  }

  /** What the pass of `kind` cuts from segment `i` on. */
  function Cut(doc: seq<Segment>, i: nat, kind: Kind): Pieces
    requires i <= |doc|
  {
    Chop(Render(doc, i, Rank(kind)), Mark(kind), 0)
  }

  lemma CutNext(doc: seq<Segment>, i: nat, kind: Kind)
    requires Flat(doc) && i < |doc|
    ensures Cut(doc, i, kind) ==
      if doc[i].kind == Some(kind) then Piece("", doc[i].text, Cut(doc, i + 1, kind))
      else Lead(Shown(doc[i], Rank(kind)), Cut(doc, i + 1, kind))
  {
    hide Chop;
    var g, rest := doc[i], Render(doc, i + 1, Rank(kind));
    ShownBy(g, kind);
    if g.kind == Some(kind) {
      assert Char(kind) !in g.text;
      ChopMarked(g.text, rest, kind);
    } else {
      ChopFree(Shown(g, Rank(kind)), rest, kind);
    }
  }

  lemma CutEnd(doc: seq<Segment>, kind: Kind)
    ensures Cut(doc, |doc|, kind) == Tail("")
  {
  }

  lemma StartNext(doc: seq<Segment>, i: nat, done: nat)
    requires i < |doc|
    ensures Start(doc, i + 1, done) == Start(doc, i, done) + |Shown(doc[i], done)|
  {
  }

  lemma {:induction false} StripsOneKind(doc: seq<Segment>, i: nat, kind: Kind)
    requires Flat(doc) && i <= |doc|
    ensures Strip(Cut(doc, i, kind)) == Render(doc, i, Rank(kind) + 1)
    decreases |doc| - i
  {
    hide Cut;
    if i == |doc| {
      CutEnd(doc, kind);
    } else {
      StripsOneKind(doc, i + 1, kind);
      CutNext(doc, i, kind);
      ShownBy(doc[i], kind);
      StripFree(Shown(doc[i], Rank(kind)), Cut(doc, i + 1, kind));
    }
  }

  lemma {:induction false} FindsOneKind(doc: seq<Segment>, i: nat, kind: Kind)
    requires Flat(doc) && i <= |doc|
    ensures Spans(Cut(doc, i, kind), kind, Start(doc, i, Rank(kind) + 1)) == OfKind(doc, i, kind, Rank(kind) + 1)
    decreases |doc| - i
  {
    hide Cut, Start, Shown;
    if i == |doc| {
      CutEnd(doc, kind);
    } else {
      FindsOneKind(doc, i + 1, kind);
      CutNext(doc, i, kind);
      ShownBy(doc[i], kind);
      StartNext(doc, i, Rank(kind) + 1);
      SpansFree(Shown(doc[i], Rank(kind)), Cut(doc, i + 1, kind), kind, Start(doc, i, Rank(kind) + 1));
    }
  }

  lemma {:induction false} StartsGrow(doc: seq<Segment>, i: nat, j: nat, done: nat)
    requires i <= j <= |doc|
    ensures Start(doc, i, done) <= Start(doc, j, done)
    decreases j - i
  {
    hide Shown;
    if i < j {
      StartsGrow(doc, i, j - 1, done);
    }
  }

  lemma RemovedMarked(t: string, ps: Pieces, m: string, offset: int)
    ensures var width := |t| + 2 * |m|;
      RemovedBefore(Piece("", t, ps), m, offset)
      == (if width <= offset then 2 * |m| else 0) + RemovedBefore(ps, m, offset - width)
  {
  }

  /** What was removed before a segment is how far it moves. */
  lemma {:induction false} RemovedIsTheMove(doc: seq<Segment>, i: nat, j: nat, kind: Kind)
    requires Flat(doc) && i <= j <= |doc|
    ensures var k := Rank(kind);
      RemovedBefore(Cut(doc, i, kind), Mark(kind), Start(doc, j, k) - Start(doc, i, k))
      == (Start(doc, j, k) - Start(doc, i, k)) - (Start(doc, j, k + 1) - Start(doc, i, k + 1))
    decreases j - i
  {
    hide Cut, Start, RemovedBefore, Shown;
    var k := Rank(kind);
    if i == j {
      RemovedNone(Cut(doc, i, kind), Mark(kind), 0);
    } else {
      var offset, ps := Start(doc, j, k) - Start(doc, i, k), Cut(doc, i + 1, kind);
      RemovedIsTheMove(doc, i + 1, j, kind);
      StartNext(doc, i, k);
      StartNext(doc, i, k + 1);
      StartsGrow(doc, i + 1, j, k);
      CutNext(doc, i, kind);
      ShownBy(doc[i], kind);
      RemovedFree(Shown(doc[i], k), ps, Mark(kind), offset);
      RemovedMarked(doc[i].text, ps, Mark(kind), offset);
    }
  }

  lemma MovesWithSegment(doc: seq<Segment>, i: nat, early: Kind, kind: Kind)
    requires Flat(doc) && i < |doc|
    ensures Moved(Entity(early, Start(doc, i, Rank(kind)), |doc[i].text|), Cut(doc, 0, kind), Mark(kind))
         == Entity(early, Start(doc, i, Rank(kind) + 1), |doc[i].text|)
  {
    hide Cut, RemovedBefore;
    RemovedIsTheMove(doc, 0, i, kind);
  }

  /** Earlier entities follow their segments. */
  lemma {:induction false} ReshiftFollows(doc: seq<Segment>, i: nat, early: Kind, kind: Kind)
    requires Flat(doc) && i <= |doc|
    ensures Reshift(OfKind(doc, i, early, Rank(kind)), Cut(doc, 0, kind), Mark(kind)) == OfKind(doc, i, early, Rank(kind) + 1)
    decreases |doc| - i
  {
    hide Cut, Moved, Start, Reshift;
    var ps, m, k := Cut(doc, 0, kind), Mark(kind), Rank(kind);
    if i == |doc| {
      ReshiftEmpty(ps, m);
    } else {
      var later := OfKind(doc, i + 1, early, k);
      ReshiftFollows(doc, i + 1, early, kind);
      if doc[i].kind == Some(early) {
        MovesWithSegment(doc, i, early, kind);
        ReshiftCons(Entity(early, Start(doc, i, k), |doc[i].text|), later, ps, m);
      } else {
        assert [] + later == later;
      }
    }
  }

  lemma ReshiftCons(e: Entity, rest: seq<Entity>, ps: Pieces, m: string)
    ensures Reshift([e] + rest, ps, m) == [Moved(e, ps, m)] + Reshift(rest, ps, m)
  {
    assert ([e] + rest)[1..] == rest;
  }

  lemma {:induction false} ReshiftJoin(a: seq<Entity>, b: seq<Entity>, ps: Pieces, m: string)
    ensures Reshift(a + b, ps, m) == Reshift(a, ps, m) + Reshift(b, ps, m)
  {
    hide Reshift, Moved;
    ReshiftEmpty(ps, m);
    if a == [] {
      assert a + b == b;
    } else {
      var e, rest := a[0], a[1..];
      ReshiftJoin(rest, b, ps, m);
      ReshiftCons(e, rest + b, ps, m);
      ReshiftCons(e, rest, ps, m);
      assert a == [e] + rest && a + b == [e] + (rest + b);
    }
  }

  lemma {:induction false} ReshiftNothing(es: seq<Entity>, t: string, m: string)
    ensures Reshift(es, Tail(t), m) == es
  {
    if es != [] {
      ReshiftNothing(es[1..], t, m);
    }
  }

  /** A pass that finds nothing changes nothing, so every pass is the same three steps. */
  lemma PassIs(st: State, kind: Kind)
    ensures var ps := Chop(st.plain, Mark(kind), 0);
      Pass(st, kind) == State(Strip(ps), Reshift(st.entities, ps, Mark(kind)) + Spans(ps, kind, 0))
  {
    var ps := Chop(st.plain, Mark(kind), 0);
    if ps.Tail? {
      assert ps.text == st.plain[0..];
      ReshiftNothing(st.entities, ps.text, Mark(kind));
    }
  }

  lemma PassOverDoc(doc: seq<Segment>, kind: Kind, es: seq<Entity>)
    requires Flat(doc)
    ensures Pass(State(Render(doc, 0, Rank(kind)), es), kind)
         == State(Render(doc, 0, Rank(kind) + 1), Reshift(es, Cut(doc, 0, kind), Mark(kind)) + OfKind(doc, 0, kind, Rank(kind) + 1))
  {
    hide Pass, Chop, Strip, Spans, Reshift, Render;
    PassIs(State(Render(doc, 0, Rank(kind)), es), kind);
    StripsOneKind(doc, 0, kind);
    FindsOneKind(doc, 0, kind);
  }

  // ── the round trip ─────────────────────────────────────────────────────────

  /** How often `e` is the entity of segment `g` standing at `at`, as one of the given kind. */
  function Weight(g: Segment, kind: Kind, at: nat, e: Entity): nat {
    if g.kind == Some(kind) && e == Entity(kind, at, |g.text|) then 1 else 0
  }

  function Times(es: seq<Entity>, e: Entity): nat {
    multiset(es)[e]
  }

  lemma CountCons(head: Entity, rest: seq<Entity>, e: Entity)
    ensures Times([head] + rest, e) == (if head == e then 1 else 0) + Times(rest, e)
  {
  }

  lemma OfKindNext(doc: seq<Segment>, i: nat, kind: Kind, done: nat, e: Entity)
    requires i < |doc|
    ensures Times(OfKind(doc, i, kind, done), e)
         == Weight(doc[i], kind, Start(doc, i, done), e) + Times(OfKind(doc, i + 1, kind, done), e)
  {
    hide Times;
    var rest := OfKind(doc, i + 1, kind, done);
    CountCons(Entity(kind, Start(doc, i, done), |doc[i].text|), rest, e);
    assert [] + rest == rest;
  }

  lemma ExpectedNext(doc: seq<Segment>, i: nat, at: nat, e: Entity)
    requires i < |doc|
    ensures Times(Expected(doc, i, at), e)
         == Weight(doc[i], Bold, at, e) + Weight(doc[i], Italic, at, e) + Weight(doc[i], Mono, at, e)
            + Times(Expected(doc, i + 1, at + |doc[i].text|), e)
  {
    var g, rest := doc[i], Expected(doc, i + 1, at + |doc[i].text|);
    hide Times;
    if g.kind.Some? {
      CountCons(Entity(g.kind.value, at, |g.text|), rest, e);
      assert g.kind.value.Bold? || g.kind.value.Italic? || g.kind.value.Mono?;
    } else {
      assert [] + rest == rest;
    }
  }

  lemma AllShown(g: Segment)
    ensures Shown(g, 3) == g.text
  {
  }

  lemma {:induction false} KindsCount(doc: seq<Segment>, i: nat, e: Entity)
    requires i <= |doc|
    ensures Times(OfKind(doc, i, Bold, 3), e) + Times(OfKind(doc, i, Italic, 3), e) + Times(OfKind(doc, i, Mono, 3), e)
         == Times(Expected(doc, i, Start(doc, i, 3)), e)
    decreases |doc| - i
  {
    hide OfKind, Start, Expected, Weight, Shown, Times;
    if i == |doc| {
      NothingLeft(doc, e);
    } else {
      KindsCount(doc, i + 1, e);
      StartNext(doc, i, 3);
      AllShown(doc[i]);
      OfKindNext(doc, i, Bold, 3, e);
      OfKindNext(doc, i, Italic, 3, e);
      OfKindNext(doc, i, Mono, 3, e);
      ExpectedNext(doc, i, Start(doc, i, 3), e);
    }
  }

  lemma NothingLeft(doc: seq<Segment>, e: Entity)
    ensures forall kind: Kind :: Times(OfKind(doc, |doc|, kind, 3), e) == 0
    ensures forall at: nat :: Times(Expected(doc, |doc|, at), e) == 0
  {
  }

  /** The three kinds' entities are the expected ones in another order. */
  lemma KindsMakeExpected(doc: seq<Segment>)
    ensures multiset(OfKind(doc, 0, Bold, 3) + OfKind(doc, 0, Italic, 3) + OfKind(doc, 0, Mono, 3))
         == multiset(Expected(doc, 0, 0))
  {
    hide OfKind, Expected;
    var b, i, m := OfKind(doc, 0, Bold, 3), OfKind(doc, 0, Italic, 3), OfKind(doc, 0, Mono, 3);
    forall e
      ensures multiset(b + i + m)[e] == multiset(Expected(doc, 0, 0))[e]
    {
      KindsCount(doc, 0, e);
      assert multiset(b + i + m)[e] == Times(b, e) + Times(i, e) + Times(m, e);
    }
  }

  ghost predicate NoEarlier(es: seq<Entity>, at: int) {
    forall n :: 0 <= n < |es| ==> at <= es[n].offset
  }

  lemma SortedCons(e: Entity, rest: seq<Entity>, next: int)
    requires StrictlySorted(rest) && NoEarlier(rest, next) && e.offset < next
    ensures StrictlySorted([e] + rest) && NoEarlier([e] + rest, e.offset)
  {
  }

  lemma {:induction false} ExpectedIsSorted(doc: seq<Segment>, i: nat, at: nat)
    requires Flat(doc) && i <= |doc|
    ensures StrictlySorted(Expected(doc, i, at)) && NoEarlier(Expected(doc, i, at), at)
    decreases |doc| - i
  {
    if i < |doc| {
      var g, rest := doc[i], Expected(doc, i + 1, at + |doc[i].text|);
      ExpectedIsSorted(doc, i + 1, at + |g.text|);
      if g.kind.Some? {
        var e := Entity(g.kind.value, at, |g.text|);
        SortedCons(e, rest, at + |g.text|);
        assert Expected(doc, i, at) == [e] + rest;
      } else {
        assert Expected(doc, i, at) == [] + rest == rest;
      }
    }
  }

  lemma {:induction false} AllPassesShowText(doc: seq<Segment>, i: nat)
    requires i <= |doc|
    ensures Render(doc, i, 3) == PlainText(doc, i)
    decreases |doc| - i
  {
    if i < |doc| {
      AllPassesShowText(doc, i + 1);
    }
  }

  /** Parsing undoes printing: the texts in order, and one entity on each marked segment. */
  lemma FlatRoundTrip(doc: seq<Segment>)
    requires Flat(doc)
    ensures Parse(Print(doc)) == State(PlainText(doc, 0), Expected(doc, 0, 0))
  {
    hide Pass, Render, Reshift, OfKind, Cut, PlainText, Expected, SortByOffset;
    PassOverDoc(doc, Bold, []);
    var bold := OfKind(doc, 0, Bold, 1);
    ReshiftEmpty(Cut(doc, 0, Bold), Mark(Bold));
    assert [] + bold == bold;
    PassOverDoc(doc, Italic, bold);
    ReshiftFollows(doc, 0, Bold, Italic);
    var italic := OfKind(doc, 0, Italic, 2);
    PassOverDoc(doc, Mono, OfKind(doc, 0, Bold, 2) + italic);
    ReshiftJoin(OfKind(doc, 0, Bold, 2), italic, Cut(doc, 0, Mono), Mark(Mono));
    ReshiftFollows(doc, 0, Bold, Mono);
    ReshiftFollows(doc, 0, Italic, Mono);
    AllPassesShowText(doc, 0);
    KindsMakeExpected(doc);
    ExpectedIsSorted(doc, 0, 0);
    SortRecovers(OfKind(doc, 0, Bold, 3) + OfKind(doc, 0, Italic, 3) + OfKind(doc, 0, Mono, 3), Expected(doc, 0, 0));
  }

  lemma ReshiftEmpty(ps: Pieces, m: string)
    ensures Reshift([], ps, m) == []
  {
  }

  // ── nested markers ─────────────────────────────────────────────────────────

  lemma {:induction false} StripShrinks(ps: Pieces, m: string)
    requires m != ""
    ensures |Strip(ps)| <= |Join(ps, m)| && (ps.Piece? ==> |Strip(ps)| < |Join(ps, m)|)
  {
    if ps.Piece? {
      StripShrinks(ps.next, m);
    }
  }

  /** A later pass keeps an entity at offset 0 as it is, and shortens the text exactly when it finds a marker. */
  lemma LaterPass(st: State, kind: Kind, e: Entity)
    requires e in st.entities && e.offset == 0
    ensures e in Pass(st, kind).entities
    ensures |Pass(st, kind).plain| <= |st.plain|
    ensures |Pass(st, kind).plain| < |st.plain| <==> NextMatch(st.plain, Mark(kind), 0).Some?
    ensures NextMatch(st.plain, Mark(kind), 0).None? ==> Pass(st, kind).plain == st.plain
  {
    hide NextMatch;
    var m, ps := Mark(kind), Chop(st.plain, Mark(kind), 0);
    ChopJoins(st.plain, m, 0);
    StripShrinks(ps, m);
    RemovedNone(ps, m, 0);
    ReshiftKeeps(st.entities, e, ps, m);
  }

  lemma {:induction false} ReshiftKeeps(es: seq<Entity>, e: Entity, ps: Pieces, m: string)
    requires e in es && Moved(e, ps, m) == e
    ensures e in Reshift(es, ps, m)
  {
    hide Moved;
    if es[0] != e {
      ReshiftKeeps(es[1..], e, ps, m);
    }
  }

  lemma BoldPass(w: string)
    requires '*' !in w && w != ""
    ensures Pass(State("**" + w + "**", []), Bold) == State(w, [Entity(Bold, 0, |w|)])
  {
    hide Chop;
    var m := Mark(Bold);
    ChopMarked(w, "", Bold);
    ChopEnd("", m, 0);
    assert m + w + m + "" == "**" + w + "**";
    var ps := Chop("**" + w + "**", m, 0);
    assert ps == Piece("", w, Tail(""));
    ReshiftEmpty(ps, m);
    assert Strip(Tail("")) == "" && Spans(Tail(""), Bold, |w|) == [];
    assert "" + w + "" == w;
    assert Strip(ps) == w;
    assert Spans(ps, Bold, 0) == [Entity(Bold, 0, |w|)];
  }

  /** A bold entity reaches past the text exactly when the bold text holds another kind's markers:
      those are stripped later and the entity keeps its length. */
  lemma BoldOverrunsExactlyWhen(w: string)
    requires '*' !in w && w != ""
    ensures var st := Parse("**" + w + "**");
      && Entity(Bold, 0, |w|) in st.entities
      && (|w| > |st.plain| <==> NextMatch(w, "__", 0).Some? || NextMatch(w, "`", 0).Some?)
  {
    hide Pass, NextMatch, SortByOffset;
    var e, one := Entity(Bold, 0, |w|), Pass(State("**" + w + "**", []), Bold);
    BoldPass(w);
    var two := Pass(one, Italic);
    LaterPass(one, Italic, e);
    LaterPass(two, Mono, e);
    SortPermutes(Pass(two, Mono).entities);
    assert e in multiset(Pass(two, Mono).entities);
  }
}
