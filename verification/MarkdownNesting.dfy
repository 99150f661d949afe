/** Nested markers: exactly when an entity ends up reaching past the text. */
module MarkdownNesting {
  import opened Common
  import opened Entities
  import opened Markdown
  import opened MarkdownDocs

  // ── one pass ───────────────────────────────────────────────────────────────

  /** The marker characters a pass strips. */
  function MarkerChars(ps: Pieces, m: string): nat {
    match ps
    case Tail(_) => 0
    case Piece(_, _, next) => 2 * |m| + MarkerChars(next, m)
  }

  /** The marker characters of the matches that end behind `offset`. */
  function Behind(ps: Pieces, m: string, offset: int): nat {
    match ps
    case Tail(_) => 0
    case Piece(front, inner, next) =>
      var end := |front| + |inner| + 2 * |m|;
      (if end > offset then 2 * |m| else 0) + Behind(next, m, offset - end)
  }

  lemma {:induction false} BeforeAndBehind(ps: Pieces, m: string, offset: int)
    ensures RemovedBefore(ps, m, offset) + Behind(ps, m, offset) == MarkerChars(ps, m)
  {
    if ps.Piece? {
      BeforeAndBehind(ps.next, m, offset - |ps.front| - |ps.inner| - 2 * |m|);
    }
  }

  lemma {:induction false} StrippedLength(ps: Pieces, m: string)
    ensures |Join(ps, m)| == |Strip(ps)| + MarkerChars(ps, m)
  {
    if ps.Piece? {
      StrippedLength(ps.next, m);
    }
  }

  lemma {:induction false} RemovedIsLittle(ps: Pieces, m: string, offset: int)
    ensures RemovedBefore(ps, m, offset) <= if offset < 0 then 0 else offset
  {
    if ps.Piece? {
      RemovedIsLittle(ps.next, m, offset - |ps.front| - |ps.inner| - 2 * |m|);
    }
  }

  /** Some part of the entity lies outside a text of this length. */
  predicate Overruns(e: Entity, limit: nat) {
    e.offset < 0 || e.offset + e.length > limit
  }

  /** For every text and every marker: an entity on the text reaches past the text after the pass exactly when
      the marker characters of the matches that end behind its start outnumber the characters behind its end. */
  lemma PassOverrunsExactlyWhen(plain: string, m: string, e: Entity)
    requires m != "" && e.offset >= 0
    ensures var ps := Chop(plain, m, 0);
      && |Strip(ps)| == |plain| - MarkerChars(ps, m)
      && (Overruns(Moved(e, ps, m), |Strip(ps)|) <==> Behind(ps, m, e.offset) > |plain| - (e.offset + e.length))
      && Moved(e, ps, m).offset >= 0
  {
    hide Chop;
    var ps := Chop(plain, m, 0);
    ChopJoins(plain, m, 0);
    assert plain[0..] == plain;
    StrippedLength(ps, m);
    BeforeAndBehind(ps, m, e.offset);
    RemovedIsLittle(ps, m, e.offset);
  }

  // ── what an entity covers after one pass ───────────────────────────────────

  function Between(x: int, limit: nat): nat {
    if x < 0 then 0 else Min(x, limit)
  }

  /** How many of the first `p` characters of the text the pass leaves. */
  function Left(ps: Pieces, m: string, p: int): nat {
    match ps
    case Tail(text) => Between(p, |text|)
    case Piece(front, inner, next) =>
      Between(p, |front|) + Between(p - |front| - |m|, |inner|) + Left(next, m, p - |front| - |inner| - 2 * |m|)
  }

  /** `Left` follows the text through the pass: each character is dropped, or is the next one of what is left. */
  lemma {:induction false} LeftFollows(ps: Pieces, m: string, p: nat)
    requires p < |Join(ps, m)|
    ensures Left(ps, m, p + 1) == Left(ps, m, p) || Taken(ps, m, p)
  {
    if ps.Tail? {
      assert Taken(ps, m, p);
    } else {
      var end := |ps.front| + |ps.inner| + 2 * |m|;
      JoinLength(ps, m);
      LeftIs(ps, m, p);
      LeftIs(ps, m, p + 1);
      hide Join, Strip, Left, Taken;
      if p >= end {
        LeftFollows(ps.next, m, p - end);
        if Taken(ps.next, m, p - end) {
          TakenLater(ps, m, p);
        }
      } else if p < |ps.front| {
        TakenInFront(ps, m, p);
      } else if |ps.front| + |m| <= p < end - |m| {
        TakenInside(ps, m, p);
      }
    }
  }

  lemma JoinLength(ps: Pieces, m: string)
    requires ps.Piece?
    ensures |Join(ps, m)| == |ps.front| + |ps.inner| + 2 * |m| + |Join(ps.next, m)|
  {
  }

  lemma LeftIs(ps: Pieces, m: string, p: nat)
    requires ps.Piece?
    ensures var front, inner, end := |ps.front|, |ps.inner|, |ps.front| + |ps.inner| + 2 * |m|;
      Left(ps, m, p) == Between(p, front) + Between(p - front - |m|, inner) + (if p > end then Left(ps.next, m, p - end) else 0)
    ensures var end := |ps.front| + |ps.inner| + 2 * |m|; p >= end ==> Left(ps.next, m, 0) == 0
  {
    LeftOfNothing(ps.next, m, p - |ps.front| - |ps.inner| - 2 * |m|);
    LeftOfNothing(ps.next, m, 0);
  }

  lemma RemovedIs(ps: Pieces, m: string, p: int)
    requires ps.Piece?
    ensures var end := |ps.front| + |ps.inner| + 2 * |m|;
      RemovedBefore(ps, m, p) == (if end <= p then 2 * |m| else 0) + RemovedBefore(ps.next, m, p - end)
  {
  }

  /** Character `p` is the next one of what is left. */
  ghost predicate Taken(ps: Pieces, m: string, p: nat)
    requires p < |Join(ps, m)|
  {
    && Left(ps, m, p + 1) == Left(ps, m, p) + 1 <= |Strip(ps)|
    && Strip(ps)[Left(ps, m, p)] == Join(ps, m)[p]
  }

  lemma TakenInFront(ps: Pieces, m: string, p: nat)
    requires ps.Piece? && p < |ps.front|
    ensures p < |Join(ps, m)| && Taken(ps, m, p)
  {
    LeftOfNothing(ps.next, m, p - |ps.front| - |ps.inner| - 2 * |m|);
    LeftOfNothing(ps.next, m, p + 1 - |ps.front| - |ps.inner| - 2 * |m|);
    assert Join(ps, m)[p] == ps.front[p] == Strip(ps)[p];
  }

  lemma TakenInside(ps: Pieces, m: string, p: nat)
    requires ps.Piece? && |ps.front| + |m| <= p < |ps.front| + |m| + |ps.inner|
    ensures p < |Join(ps, m)| && Taken(ps, m, p)
  {
    LeftOfNothing(ps.next, m, p - |ps.front| - |ps.inner| - 2 * |m|);
    LeftOfNothing(ps.next, m, p + 1 - |ps.front| - |ps.inner| - 2 * |m|);
    var front, inner := ps.front, ps.inner;
    assert Join(ps, m) == (front + m) + inner + (m + Join(ps.next, m));
    assert Join(ps, m)[p] == inner[p - |front| - |m|];
    assert Strip(ps)[p - |m|] == inner[p - |front| - |m|];
  }

  lemma TakenLater(ps: Pieces, m: string, p: nat)
    requires ps.Piece?
    requires var end := |ps.front| + |ps.inner| + 2 * |m|; end <= p < end + |Join(ps.next, m)| && Taken(ps.next, m, p - end)
    ensures p < |Join(ps, m)| && Taken(ps, m, p)
  {
    var front, inner, end := ps.front, ps.inner, |ps.front| + |ps.inner| + 2 * |m|;
    assert Join(ps, m) == (front + m + inner + m) + Join(ps.next, m);
    assert Strip(ps) == (front + inner) + Strip(ps.next);
    LeftIs(ps, m, p);
    LeftIs(ps, m, p + 1);
    hide Join, Strip, Left;
    assert Join(ps, m)[p] == Join(ps.next, m)[p - end];
    var k := Left(ps.next, m, p - end);
    assert Strip(ps)[|front| + |inner| + k] == Strip(ps.next)[k];
  }

  lemma {:induction false} LeftOfNothing(ps: Pieces, m: string, p: int)
    ensures p <= 0 ==> Left(ps, m, p) == 0 && RemovedBefore(ps, m, p) <= 0
    ensures p <= 0 && m != "" ==> !Within(ps, m, p)
  {
    if ps.Piece? {
      LeftOfNothing(ps.next, m, p - |ps.front| - |ps.inner| - 2 * |m|);
    }
  }

  lemma {:induction false} LeftOfAll(ps: Pieces, m: string)
    ensures Left(ps, m, |Join(ps, m)|) == |Strip(ps)|
  {
    if ps.Piece? {
      LeftOfAll(ps.next, m);
    }
  }

  /** Some match begins before `p` and ends after it. */
  predicate Within(ps: Pieces, m: string, p: int) {
    match ps
    case Tail(_) => false
    case Piece(front, inner, next) =>
      var end := |front| + |inner| + 2 * |m|;
      |front| < p < end || Within(next, m, p - end)
  }

  /** No match shares a character with the text from `a` to `b`. */
  predicate Clear(ps: Pieces, m: string, a: int, b: int) {
    match ps
    case Tail(_) => true
    case Piece(front, inner, next) =>
      var end := |front| + |inner| + 2 * |m|;
      (end <= a || b <= |front|) && Clear(next, m, a - end, b - end)
  }

  /** The entity covers, in what the pass leaves, exactly what is left of the characters it covered. */
  predicate CoversItsOwn(e: Entity, ps: Pieces, m: string) {
    var f := Moved(e, ps, m);
    f.offset == Left(ps, m, e.offset) && f.offset + f.length == Left(ps, m, e.offset + e.length)
  }

  lemma {:induction false} ShiftIsRight(ps: Pieces, m: string, p: int)
    requires m != "" && 0 <= p <= |Join(ps, m)|
    ensures Left(ps, m, p) + RemovedBefore(ps, m, p) <= p
    ensures Left(ps, m, p) + RemovedBefore(ps, m, p) == p <==> !Within(ps, m, p)
  {
    if ps.Piece? {
      var end := |ps.front| + |ps.inner| + 2 * |m|;
      LeftOfNothing(ps.next, m, p - end);
      JoinLength(ps, m);
      LeftIs(ps, m, p);
      RemovedIs(ps, m, p);
      hide Join, Left, RemovedBefore;
      if p >= end {
        ShiftIsRight(ps.next, m, p - end);
      }
    }
  }

  lemma {:induction false} NothingLost(ps: Pieces, m: string, a: int, b: int)
    requires m != "" && 0 <= a < b <= |Join(ps, m)| && !Within(ps, m, a)
    ensures Left(ps, m, b) - Left(ps, m, a) <= b - a
    ensures Left(ps, m, b) - Left(ps, m, a) == b - a <==> Clear(ps, m, a, b)
  {
    if ps.Piece? {
      var end := |ps.front| + |ps.inner| + 2 * |m|;
      LeftOfNothing(ps.next, m, a - end);
      JoinLength(ps, m);
      LeftIs(ps, m, a);
      LeftIs(ps, m, b);
      hide Join, Left;
      if a >= end {
        NothingLost(ps.next, m, a - end, b - end);
      } else if b > end {
        ShiftIsRight(ps.next, m, b - end);
      } else {
        ClearBehind(ps.next, m, a - end, b - end);
      }
    }
  }

  lemma {:induction false} ClearBehind(ps: Pieces, m: string, a: int, b: int)
    requires b <= 0
    ensures Clear(ps, m, a, b)
  {
    if ps.Piece? {
      var end := |ps.front| + |ps.inner| + 2 * |m|;
      ClearBehind(ps.next, m, a - end, b - end);
    }
  }

  lemma {:induction false} ClearIsOutside(ps: Pieces, m: string, a: int, b: int)
    requires a < b && Clear(ps, m, a, b)
    ensures !Within(ps, m, a)
  {
    if ps.Piece? {
      var end := |ps.front| + |ps.inner| + 2 * |m|;
      ClearIsOutside(ps.next, m, a - end, b - end);
    }
  }

  /** For every text, marker and entity on the text: after the pass the entity covers exactly what is left of its
      own characters exactly when no match of the pass shares a character with it: a marker inside it costs it
      characters at its end, and a match around it shifts it by the opening marker. */
  lemma CoversExactlyWhen(plain: string, m: string, e: Entity)
    requires m != "" && e.offset >= 0 && e.length > 0 && e.offset + e.length <= |plain|
    ensures var ps := Chop(plain, m, 0); CoversItsOwn(e, ps, m) <==> Clear(ps, m, e.offset, e.offset + e.length)
  {
    hide Chop;
    var ps, a, b := Chop(plain, m, 0), e.offset, e.offset + e.length;
    ChopJoins(plain, m, 0);
    assert plain[0..] == plain;
    ShiftIsRight(ps, m, a);
    if Within(ps, m, a) {
      if Clear(ps, m, a, b) {
        ClearIsOutside(ps, m, a, b);
      }
    } else {
      NothingLost(ps, m, a, b);
    }
  }

  // ── the three passes ───────────────────────────────────────────────────────

  /** How the three passes cut the text, each what the one before left of it. */
  datatype Cuts = Cuts(bold: Pieces, italic: Pieces, mono: Pieces)

  function CutsOf(text: string): Cuts {
    var bold := Chop(text, Mark(Bold), 0);
    var italic := Chop(Strip(bold), Mark(Italic), 0);
    Cuts(bold, italic, Chop(Strip(italic), Mark(Mono), 0))
  }

  /** The three lists of entities, where the passes leave them. */
  function BoldAtEnd(c: Cuts): seq<Entity> {
    Reshift(Reshift(Spans(c.bold, Bold, 0), c.italic, Mark(Italic)), c.mono, Mark(Mono))
  }

  function ItalicAtEnd(c: Cuts): seq<Entity> {
    Reshift(Spans(c.italic, Italic, 0), c.mono, Mark(Mono))
  }

  lemma ParseIs(text: string)
    ensures var c := CutsOf(text);
      Parse(text) == State(Strip(c.mono), SortByOffset(BoldAtEnd(c) + ItalicAtEnd(c) + Spans(c.mono, Mono, 0)))
  {
    hide Pass, Chop, Strip, Spans, Reshift, SortByOffset;
    var c := CutsOf(text);
    var bold := Spans(c.bold, Bold, 0);
    PassIs(State(text, []), Bold);
    ReshiftEmpty(c.bold, Mark(Bold));
    assert [] + bold == bold;
    PassIs(State(Strip(c.bold), bold), Italic);
    var moved := Reshift(bold, c.italic, Mark(Italic));
    PassIs(State(Strip(c.italic), moved + Spans(c.italic, Italic, 0)), Mono);
    ReshiftJoin(moved, Spans(c.italic, Italic, 0), c.mono, Mark(Mono));
  }

  lemma {:induction false} ReshiftMembers(es: seq<Entity>, ps: Pieces, m: string, e: Entity)
    ensures e in Reshift(es, ps, m) <==> exists f :: f in es && e == Moved(f, ps, m)
  {
    hide Moved;
    if es != [] {
      ReshiftMembers(es[1..], ps, m, e);
      assert es == [es[0]] + es[1..];
      ReshiftCons(es[0], es[1..], ps, m);
    }
  }

  /** Where a bold entity ends up. */
  function BoldMoved(c: Cuts, f: Entity): Entity {
    Moved(Moved(f, c.italic, Mark(Italic)), c.mono, Mark(Mono))
  }

  function ItalicMoved(c: Cuts, f: Entity): Entity {
    Moved(f, c.mono, Mark(Mono))
  }

  /** A bold entity as its pass finds it, with more markers behind its start than characters behind its end. */
  ghost predicate BoldSticksOut(c: Cuts, f: Entity) {
    && f in Spans(c.bold, Bold, 0)
    && Behind(c.italic, Mark(Italic), f.offset) + Behind(c.mono, Mark(Mono), Moved(f, c.italic, Mark(Italic)).offset)
         > |Strip(c.bold)| - (f.offset + f.length)
  }

  ghost predicate ItalicSticksOut(c: Cuts, f: Entity) {
    f in Spans(c.italic, Italic, 0) && Behind(c.mono, Mark(Mono), f.offset) > |Strip(c.italic)| - (f.offset + f.length)
  }

  lemma FoundInside(text: string, m: string, kind: Kind, f: Entity)
    requires m != "" && f in Spans(Chop(text, m, 0), kind, 0)
    ensures f.offset >= 0 && f.length > 0 && f.offset + f.length <= |Strip(Chop(text, m, 0))|
  {
    hide Chop, Spans, Strip;
    ChopJoins(text, m, 0);
    SpansAreInside(Chop(text, m, 0), kind, 0);
  }

  lemma BoldOverruns(text: string, f: Entity)
    requires f in Spans(CutsOf(text).bold, Bold, 0)
    ensures var c := CutsOf(text);
      BoldMoved(c, f).offset >= 0 && (Overruns(BoldMoved(c, f), |Strip(c.mono)|) <==> BoldSticksOut(c, f))
  {
    hide Chop, Spans, Strip, Moved, Behind;
    var c := CutsOf(text);
    var g := Moved(f, c.italic, Mark(Italic));
    FoundInside(text, Mark(Bold), Bold, f);
    PassOverrunsExactlyWhen(Strip(c.bold), Mark(Italic), f);
    PassOverrunsExactlyWhen(Strip(c.italic), Mark(Mono), g);
    MovedBy(f, c.italic, Mark(Italic));
  }

  lemma MovedBy(f: Entity, ps: Pieces, m: string)
    ensures var g := Moved(f, ps, m);
      g.kind == f.kind && g.length == f.length && g.offset == f.offset - (MarkerChars(ps, m) - Behind(ps, m, f.offset))
  {
    BeforeAndBehind(ps, m, f.offset);
  }

  lemma ItalicOverruns(text: string, f: Entity)
    requires f in Spans(CutsOf(text).italic, Italic, 0)
    ensures var c := CutsOf(text);
      ItalicMoved(c, f).offset >= 0 && (Overruns(ItalicMoved(c, f), |Strip(c.mono)|) <==> ItalicSticksOut(c, f))
  {
    hide Chop, Spans, Moved, Behind;
    var c := CutsOf(text);
    FoundInside(Strip(c.bold), Mark(Italic), Italic, f);
    PassOverrunsExactlyWhen(Strip(c.italic), Mark(Mono), f);
  }

  /** The entities of a parse are those its passes find, moved by the later passes, and no others. */
  lemma ParsedEntities(text: string, e: Entity)
    ensures var c := CutsOf(text);
      e in Parse(text).entities <==>
        || (exists f :: f in Spans(c.bold, Bold, 0) && e == BoldMoved(c, f))
        || (exists f :: f in Spans(c.italic, Italic, 0) && e == ItalicMoved(c, f))
        || e in Spans(c.mono, Mono, 0)
  {
    hide Chop, Spans, Strip, Moved, Reshift, SortByOffset, Parse, CutsOf;
    var c := CutsOf(text);
    var bold, italic, mono := Spans(c.bold, Bold, 0), Spans(c.italic, Italic, 0), Spans(c.mono, Mono, 0);
    var all := BoldAtEnd(c) + ItalicAtEnd(c) + mono;
    ParseIs(text);
    SortPermutes(all);
    assert e in SortByOffset(all) <==> e in multiset(SortByOffset(all));
    assert e in all <==> e in multiset(all);
    BoldMembers(c, e);
    ReshiftMembers(italic, c.mono, Mark(Mono), e);
  }

  lemma BoldMembers(c: Cuts, e: Entity)
    ensures e in BoldAtEnd(c) <==> exists f :: f in Spans(c.bold, Bold, 0) && e == BoldMoved(c, f)
  {
    hide Spans, Moved, Reshift;
    var bold := Spans(c.bold, Bold, 0);
    var moved := Reshift(bold, c.italic, Mark(Italic));
    ReshiftMembers(moved, c.mono, Mark(Mono), e);
    forall g
      ensures g in moved <==> exists f :: f in bold && g == Moved(f, c.italic, Mark(Italic))
    {
      ReshiftMembers(bold, c.italic, Mark(Italic), g);
    }
  }

  /** For every text: every entity of the parse lies inside its plain text exactly when no bold and no italic
      entity has more markers of the later passes behind its start than characters behind its end. */
  lemma ParseOverrunsExactlyWhen(text: string)
    ensures var c, st := CutsOf(text), Parse(text);
      && (forall e :: e in st.entities ==> e.offset >= 0)
      && ((exists e :: e in st.entities && Overruns(e, |st.plain|)) <==>
            (exists f :: BoldSticksOut(c, f)) || (exists f :: ItalicSticksOut(c, f)))
  {
    hide Chop, Spans, Strip, Moved, SortByOffset, Parse, CutsOf, BoldMoved, ItalicMoved, Overruns, BoldSticksOut, ItalicSticksOut;
    var c, st := CutsOf(text), Parse(text);
    ParseIs(text);
    forall e | e in st.entities
      ensures e.offset >= 0
      ensures Overruns(e, |st.plain|) ==> (exists f :: BoldSticksOut(c, f)) || (exists f :: ItalicSticksOut(c, f))
    {
      EntityOverruns(text, e);
    }
    forall f | BoldSticksOut(c, f)
      ensures exists e :: e in st.entities && Overruns(e, |st.plain|)
    {
      BoldIsFound(c, f);
      BoldOverruns(text, f);
      ParsedEntities(text, BoldMoved(c, f));
    }
    forall f | ItalicSticksOut(c, f)
      ensures exists e :: e in st.entities && Overruns(e, |st.plain|)
    {
      ItalicIsFound(c, f);
      ItalicOverruns(text, f);
      ParsedEntities(text, ItalicMoved(c, f));
    }
  }

  lemma BoldIsFound(c: Cuts, f: Entity)
    requires BoldSticksOut(c, f)
    ensures f in Spans(c.bold, Bold, 0)
  {
  }

  lemma ItalicIsFound(c: Cuts, f: Entity)
    requires ItalicSticksOut(c, f)
    ensures f in Spans(c.italic, Italic, 0)
  {
  }

  lemma EntityOverruns(text: string, e: Entity)
    requires e in Parse(text).entities
    ensures var c := CutsOf(text);
      && e.offset >= 0
      && (Overruns(e, |Strip(c.mono)|) ==> (exists f :: BoldSticksOut(c, f)) || (exists f :: ItalicSticksOut(c, f)))
  {
    hide Chop, Spans, Strip, Moved, Parse, BoldMoved, ItalicMoved, BoldSticksOut, ItalicSticksOut;
    var c := CutsOf(text);
    ParsedEntities(text, e);
    if f :| f in Spans(c.bold, Bold, 0) && e == BoldMoved(c, f) {
      BoldOverruns(text, f);
    } else if f :| f in Spans(c.italic, Italic, 0) && e == ItalicMoved(c, f) {
      ItalicOverruns(text, f);
    } else {
      FoundInside(Strip(c.italic), Mark(Mono), Mono, e);
    }
  }

  /** One text whose bold entity is four characters long and whose plain text is shorter. */
  lemma OverrunExample(w: string)
    requires w == "a`b`"
    ensures "**" + w + "**" == "**a`b`**"
    ensures var st := Parse("**" + w + "**");
      Entity(Bold, 0, 4) in st.entities && |st.plain| < 4
  {
    hide Parse, Chop, NextMatch;
    assert At(w, 1, "`") && At(w, 3, "`");
    assert Matches(w, "`", 0, Match(1, 3));
    NextMatchIsLeftmostShortest(w, "`", 0);
    BoldOverrunsExactlyWhen(w);
  }

  /** A mono span inside a bold one that goes on behind it, as in "**a`b`c** and more", with enough text to follow:
      after the mono pass the bold entity lies inside the text but does not cover what is left of its own. */
  lemma CoversTooMuch(front: string, inner: string, back: string, rest: string)
    requires '`' !in front && '`' !in inner && '`' !in back + rest && inner != "" && |rest| >= 2
    ensures var plain := front + ("`" + inner + "`" + (back + rest));
      var e, ps := Entity(Bold, 0, |front| + |inner| + 2 + |back|), Chop(plain, "`", 0);
      && Strip(ps) == front + inner + (back + rest) && Moved(e, ps, "`") == e
      && !Overruns(e, |Strip(ps)|) && !CoversItsOwn(e, ps, "`")
  {
    hide Chop;
    var after, m := back + rest, Mark(Mono);
    var plain := front + (m + inner + m + after);
    ChopFree(front, m + inner + m + after, Mono);
    ChopMarked(inner, after, Mono);
    ChopFree(after, "", Mono);
    ChopEnd("", m, 0);
    assert after + "" == after && front + "" == front;
    var ps := Chop(plain, m, 0);
    assert ps == Piece(front, inner, Tail(after));
    var e := Entity(Bold, 0, |front| + |inner| + 2 + |back|);
    OnePiece(front, inner, after, e);
    CoversExactlyWhen(plain, m, e);
  }

  lemma OnePiece(front: string, inner: string, after: string, e: Entity)
    requires e.offset == 0 && e.length > |front|
    ensures var ps := Piece(front, inner, Tail(after));
      Strip(ps) == front + inner + after && !Clear(ps, "`", 0, e.length) && Moved(e, ps, "`") == e
  {
    assert Strip(Tail(after)) == after;
    LeftOfNothing(Piece(front, inner, Tail(after)), "`", 0);
  }
}
