/** Markdown-style markers to entities: three passes, each stripping one kind of marker. */
module Markdown {
  import opened Common
  import opened Entities

  // ── one marker, one match ──────────────────────────────────────────────────

  function Mark(kind: Kind): string {
    match kind
    case Bold => "**"
    case Italic => "__"
    case Mono => "`"
  }

  /** `m` stands at position `i` of `s`. */
  predicate At(s: string, i: nat, m: string) {
    i + |m| <= |s| && s[i..i + |m|] == m
  }

  /** First occurrence of `m` at or after `from`. */
  function Find(s: string, m: string, from: nat): (r: Option<nat>)
    ensures r.Some? ==> from <= r.value && r.value + |m| <= |s|
    decreases |s| - from
  {
    if from + |m| > |s| then None
    else if At(s, from, m) then Some(from)
    else Find(s, m, from + 1)
  }

  lemma {:induction false} FindIsFirst(s: string, m: string, from: nat)
    ensures var r := Find(s, m, from);
      && (r.Some? ==> At(s, r.value, m) && forall i :: from <= i < r.value ==> !At(s, i, m))
      && (r.None? ==> forall i :: from <= i ==> !At(s, i, m))
    decreases |s| - from
  {
    if from + |m| <= |s| && !At(s, from, m) {
      FindIsFirst(s, m, from + 1);
    }
  }

  /** A match of `m(.+?)m`: the markers stand at `open` and `close`. */
  datatype Match = Match(open: nat, close: nat)

  ghost predicate Matches(s: string, m: string, from: nat, x: Match) {
    from <= x.open && x.open + |m| + 1 <= x.close && At(s, x.open, m) && At(s, x.close, m)
  }

  function NextMatch(s: string, m: string, from: nat): (r: Option<Match>)
    ensures r.Some? ==> from <= r.value.open && r.value.open + |m| + 1 <= r.value.close && r.value.close + |m| <= |s|
  {
    var open := Find(s, m, from);
    if open.None? then None
    else
      var close := Find(s, m, open.value + |m| + 1);
      if close.None? then None else Some(Match(open.value, close.value))
  }

  predicate Precedes(x: Match, y: Match) {
    x.open < y.open || (x.open == y.open && x.close <= y.close)
  }

  /** The search is the regular expression's: leftmost opening, then shortest non-empty inside; none means none anywhere. */
  lemma NextMatchIsLeftmostShortest(s: string, m: string, from: nat)
    ensures var r := NextMatch(s, m, from);
      && (r.None? ==> forall x :: !Matches(s, m, from, x))
      && (r.Some? ==> Matches(s, m, from, r.value) && forall x :: Matches(s, m, from, x) ==> Precedes(r.value, x))
  {
    FindIsFirst(s, m, from);
    var open := Find(s, m, from);
    if open.Some? {
      FindIsFirst(s, m, open.value + |m| + 1);
    }
  }

  // ── one pass ───────────────────────────────────────────────────────────────

  /** A string as its matches cut it: text before a match, the inside, and so on to the tail. */
  datatype Pieces = Tail(text: string) | Piece(front: string, inner: string, next: Pieces)

  function Chop(s: string, m: string, from: nat): Pieces
    requires m != "" && from <= |s|
    decreases |s| - from
  {
    var x := NextMatch(s, m, from);
    if x.None? then Tail(s[from..])
    else Piece(s[from..x.value.open], s[x.value.open + |m|..x.value.close], Chop(s, m, x.value.close + |m|))
  }

  /** The text the pieces were cut from. */
  function Join(ps: Pieces, m: string): string {
    match ps
    case Tail(text) => text
    case Piece(front, inner, next) => front + m + inner + m + Join(next, m)
  }

  /** The text without its markers. */
  function Strip(ps: Pieces): string {
    match ps
    case Tail(text) => text
    case Piece(front, inner, next) => front + inner + Strip(next)
  }

  /** The entities of the insides, when the stripped text starts at offset `base`. */
  function Spans(ps: Pieces, kind: Kind, base: nat): seq<Entity> {
    match ps
    case Tail(_) => []
    case Piece(front, inner, next) =>
      [Entity(kind, base + |front|, |inner|)] + Spans(next, kind, base + |front| + |inner|)
  }

  /** How many marker characters of the matches that end by `offset` were removed. */
  function RemovedBefore(ps: Pieces, m: string, offset: int): nat {
    match ps
    case Tail(_) => 0
    case Piece(front, inner, next) =>
      var end := |front| + |inner| + 2 * |m|;
      (if end <= offset then 2 * |m| else 0) + RemovedBefore(next, m, offset - end)
  }

  ghost predicate NonEmptyInsides(ps: Pieces) {
    ps.Piece? ==> |ps.inner| > 0 && NonEmptyInsides(ps.next)
  }

  lemma CutInFive(s: string, m: string, from: nat, x: Match)
    requires from <= |s| && NextMatch(s, m, from) == Some(x)
    ensures s[from..] == s[from..x.open] + m + s[x.open + |m|..x.close] + m + s[x.close + |m|..]
  {
    NextMatchIsLeftmostShortest(s, m, from);
    var tail := m + s[x.close + |m|..];
    assert s[x.close..] == tail;
    assert s[x.open + |m|..] == s[x.open + |m|..x.close] + tail;
    assert s[x.open..] == m + s[x.open + |m|..];
    assert s[from..] == s[from..x.open] + s[x.open..];
  }

  lemma JoinStep(p: Pieces, m: string, tail: string)
    requires p.Piece? && Join(p.next, m) == tail
    ensures Join(p, m) == p.front + m + p.inner + m + tail
  {
  }

  /** Cutting loses nothing, and no inside is empty. */
  lemma {:induction false} ChopJoins(s: string, m: string, from: nat)
    requires m != "" && from <= |s|
    ensures Join(Chop(s, m, from), m) == s[from..] && NonEmptyInsides(Chop(s, m, from))
    decreases |s| - from
  {
    var x := NextMatch(s, m, from);
    if x.Some? {
      var later := x.value.close + |m|;
      CutInFive(s, m, from, x.value);
      ChopJoins(s, m, later);
      JoinStep(Chop(s, m, from), m, s[later..]);
    }
  }

  ghost predicate Laid(spans: seq<Entity>, base: nat, limit: nat) {
    && (forall i :: 0 <= i < |spans| ==> base <= spans[i].offset && spans[i].length > 0 && spans[i].offset + spans[i].length <= limit)
    && (forall i, j :: 0 <= i < j < |spans| ==> spans[i].offset + spans[i].length <= spans[j].offset)
  }

  /** Spans are non-empty, in order, disjoint and inside the stripped text. */
  lemma {:induction false} SpansAreInside(ps: Pieces, kind: Kind, base: nat)
    requires NonEmptyInsides(ps)
    ensures Laid(Spans(ps, kind, base), base, base + |Strip(ps)|)
  {
    if ps.Piece? {
      SpansAreInside(ps.next, kind, base + |ps.front| + |ps.inner|);
    }
  }

  /** Puts the markers back around the spans; offsets count from `base`. */
  function Rewrap(plain: string, spans: seq<Entity>, m: string, base: nat): string
    decreases |spans|
  {
    if spans == [] then plain
    else
      var a, length := spans[0].offset - base, spans[0].length;
      if a < 0 || a + length > |plain| then plain
      else plain[..a] + m + plain[a..a + length] + m + Rewrap(plain[a + length..], spans[1..], m, base + a + length)
  }

  lemma RewrapStep(front: string, inner: string, plain: string, kind: Kind, later: seq<Entity>, m: string, base: nat)
    ensures Rewrap(front + inner + plain, [Entity(kind, base + |front|, |inner|)] + later, m, base)
         == front + m + inner + m + Rewrap(plain, later, m, base + |front| + |inner|)
  {
    var whole, a, length := front + inner + plain, |front|, |inner|;
    assert whole[..a] == front && whole[a..a + length] == inner && whole[a + length..] == plain;
    assert ([Entity(kind, base + a, length)] + later)[1..] == later;
  }

  lemma {:induction false} RewrapJoins(ps: Pieces, m: string, kind: Kind, base: nat)
    ensures Rewrap(Strip(ps), Spans(ps, kind, base), m, base) == Join(ps, m)
  {
    if ps.Piece? {
      var next := base + |ps.front| + |ps.inner|;
      RewrapJoins(ps.next, m, kind, next);
      RewrapStep(ps.front, ps.inner, Strip(ps.next), kind, Spans(ps.next, kind, next), m, base);
    }
  }

  /** For every string a pass loses nothing: its text and its entities give the string back. */
  lemma PassIsReversible(s: string, m: string, kind: Kind)
    requires m != ""
    ensures var ps := Chop(s, m, 0);
      Rewrap(Strip(ps), Spans(ps, kind, 0), m, 0) == s && Laid(Spans(ps, kind, 0), 0, |Strip(ps)|)
  {
    ChopJoins(s, m, 0);
    RewrapJoins(Chop(s, m, 0), m, kind, 0);
    SpansAreInside(Chop(s, m, 0), kind, 0);
  }

  // ── the three passes ───────────────────────────────────────────────────────

  function Moved(e: Entity, ps: Pieces, m: string): Entity {
    e.(offset := e.offset - RemovedBefore(ps, m, e.offset))
  }

  /** Earlier entities, moved to the text without this kind of marker. */
  function Reshift(entities: seq<Entity>, ps: Pieces, m: string): seq<Entity> {
    if entities == [] then []
    else [Moved(entities[0], ps, m)] + Reshift(entities[1..], ps, m)
  }

  datatype State = State(plain: string, entities: seq<Entity>)

  function Pass(st: State, kind: Kind): State {
    var ps := Chop(st.plain, Mark(kind), 0);
    if ps.Tail? then st
    else State(Strip(ps), Reshift(st.entities, ps, Mark(kind)) + Spans(ps, kind, 0))
  }

  function Parse(text: string): State {
    var st := Pass(Pass(Pass(State(text, []), Bold), Italic), Mono);
    st.(entities := SortByOffset(st.entities))
  }

  // ── the loops ──────────────────────────────────────────────────────────────

  /** What a scan has done, with what the rest will add, is the whole. */
  ghost predicate Scanned(rest: Pieces, kind: Kind, stripped: string, entities: seq<Entity>, all: Pieces) {
    stripped + Strip(rest) == Strip(all) && entities + Spans(rest, kind, |stripped|) == Spans(all, kind, 0)
  }

  lemma ScanStep(p: Pieces, kind: Kind, stripped: string, entities: seq<Entity>, all: Pieces)
    requires p.Piece? && Scanned(p, kind, stripped, entities, all)
    ensures Scanned(p.next, kind, stripped + p.front + p.inner,
                    entities + [Entity(kind, |stripped| + |p.front|, |p.inner|)], all)
  {
    var grown, head := stripped + p.front + p.inner, [Entity(kind, |stripped| + |p.front|, |p.inner|)];
    var later := Spans(p.next, kind, |grown|);
    assert grown + Strip(p.next) == stripped + (p.front + p.inner + Strip(p.next));
    assert (entities + head) + later == entities + (head + later);
  }

  lemma ChopEnd(s: string, m: string, from: nat)
    requires m != "" && from <= |s| && NextMatch(s, m, from).None?
    ensures Chop(s, m, from) == Tail(s[from..])
  {
  }

  lemma ChopStep(s: string, m: string, from: nat, x: Match)
    requires m != "" && from <= |s| && NextMatch(s, m, from) == Some(x)
    ensures Chop(s, m, from) == Piece(s[from..x.open], s[x.open + |m|..x.close], Chop(s, m, x.close + |m|))
  {
  }

  /** One turn of the loop, from the state (`cursor`, `t`, `es`) to the state (`end`, `t'`, `es'`). */
  lemma Turn(plain: string, m: string, kind: Kind, all: Pieces, cursor: nat, x: Match,
             t: string, es: seq<Entity>, end: nat, t': string, es': seq<Entity>)
    requires m != "" && cursor <= |plain| && NextMatch(plain, m, cursor) == Some(x) && end == x.close + |m|
    requires Scanned(Chop(plain, m, cursor), kind, t, es, all)
    requires t' == t + plain[cursor..x.open] + plain[x.open + |m|..x.close]
    requires es' == es + [Entity(kind, |t| + (x.open - cursor), x.close - x.open - |m|)]
    ensures Scanned(Chop(plain, m, end), kind, t', es', all)
  {
    hide Chop, Strip, Spans;
    ChopStep(plain, m, cursor, x);
    ScanStep(Chop(plain, m, cursor), kind, t, es, all);
  }

  lemma Finished(plain: string, m: string, kind: Kind, cursor: nat, stripped: string, entities: seq<Entity>, all: Pieces)
    requires m != "" && cursor <= |plain| && NextMatch(plain, m, cursor).None?
    requires Scanned(Chop(plain, m, cursor), kind, stripped, entities, all)
    ensures stripped + plain[cursor..] == Strip(all) && entities == Spans(all, kind, 0)
  {
  }

  /** One pattern's scan of the text, as the code runs it. */
  method Scan(plain: string, m: string, kind: Kind) returns (stripped: string, entities: seq<Entity>)
    requires m != ""
    ensures stripped == Strip(Chop(plain, m, 0))
    ensures entities == Spans(Chop(plain, m, 0), kind, 0)
  {
    hide Chop, Strip, Spans;
    ghost var all := Chop(plain, m, 0);
    stripped, entities := "", [];
    var cursor, plainLength := 0, 0;
    var x := NextMatch(plain, m, cursor);
    while x.Some?
      invariant cursor <= |plain| && plainLength == |stripped| && x == NextMatch(plain, m, cursor)
      invariant Scanned(Chop(plain, m, cursor), kind, stripped, entities, all)
      decreases |plain| - cursor
    {
      ghost var before, text, found := cursor, stripped, entities;
      var start, close := x.value.open, x.value.close;
      stripped := stripped + plain[cursor..start];
      plainLength := plainLength + (start - cursor);
      var inner := plain[start + |m|..close];
      stripped := stripped + inner;
      entities := entities + [Entity(kind, plainLength, |inner|)];
      plainLength := plainLength + |inner|;
      cursor := close + |m|;
      Turn(plain, m, kind, all, before, x.value, text, found, cursor, stripped, entities);
      x := NextMatch(plain, m, cursor);
    }
    Finished(plain, m, kind, cursor, stripped, entities, all);
    stripped := stripped + plain[cursor..];
  }

  method ParseMarkdown(text: string) returns (plain: string, entities: seq<Entity>)
    ensures State(plain, entities) == Parse(text)
  {
    plain, entities := text, [];
    var kinds := [Bold, Italic, Mono];
    for n := 0 to |kinds|
      invariant n == 0 ==> State(plain, entities) == State(text, [])
      invariant n == 1 ==> State(plain, entities) == Pass(State(text, []), Bold)
      invariant n == 2 ==> State(plain, entities) == Pass(Pass(State(text, []), Bold), Italic)
      invariant n == 3 ==> State(plain, entities) == Pass(Pass(Pass(State(text, []), Bold), Italic), Mono)
    {
      var stripped, found := Scan(plain, Mark(kinds[n]), kinds[n]);
      if found != [] {
        entities := Reshift(entities, Chop(plain, Mark(kinds[n]), 0), Mark(kinds[n])) + found;
        plain := stripped;
      }
    }
    entities := SortByOffset(entities);
  }
}
