/** HTML-style tags to entities: one scan over the tags with a stack of open ones. */
module Html {
  import opened Common
  import opened Entities

  // ── tags ───────────────────────────────────────────────────────────────────

  /** The ASCII letter a character stands for when letters are compared ignoring case: besides
      capitals, dotted capital I and dotless i stand for `i`, and long s for `s`. */
  function Folds(c: char): char {
    if 'A' <= c <= 'Z' then (c as int + 32) as char
    else if c == '\U{0130}' || c == '\U{0131}' then 'i'
    else if c == '\U{017F}' then 's'
    else c
  }

  /** Lower-casing one character; the three odd letters do not become ASCII. */
  function Lower(c: char): char {
    if 'A' <= c <= 'Z' then (c as int + 32) as char else c
  }

  predicate Spells(t: string, name: string) {
    |t| == |name| && forall k :: 0 <= k < |name| ==> Lower(t[k]) == name[k]
  }

  /** The tag table, looked up with the name as written; None is a missing key. */
  function KindOf(t: string): Option<Kind> {
    if Spells(t, "b") || Spells(t, "strong") then Some(Bold)
    else if Spells(t, "i") || Spells(t, "em") then Some(Italic)
    else if Spells(t, "code") || Spells(t, "pre") then Some(Mono)
    else None
  }

  /** `name`, ignoring case, and then the closing bracket. */
  predicate NameAt(s: string, j: nat, name: string) {
    && j + |name| < |s| && s[j + |name|] == '>'
    && forall q :: j <= q < j + |name| ==> Folds(s[q]) == name[q - j]
  }

  /** How long a tag name stands at `j`. */
  function NameLength(s: string, j: nat): (r: Option<nat>)
    ensures r.Some? ==> r.value > 0 && j + r.value < |s| && s[j + r.value] == '>'
  {
    if NameAt(s, j, "b") then Some(1)
    else if NameAt(s, j, "strong") then Some(6)
    else if NameAt(s, j, "i") then Some(1)
    else if NameAt(s, j, "em") then Some(2)
    else if NameAt(s, j, "code") then Some(4)
    else if NameAt(s, j, "pre") then Some(3)
    else None
  }

  datatype Tag = Tag(closing: bool, name: string, width: nat)

  function TagAt(s: string, i: nat): (r: Option<Tag>)
    ensures r.Some? ==> r.value.width > 0 && i + r.value.width <= |s|
  {
    if i < |s| && s[i] == '<' then
      var closing := i + 1 < |s| && s[i + 1] == '/';
      var j := if closing then i + 2 else i + 1;
      var length := NameLength(s, j);
      if length.None? then None
      else Some(Tag(closing, s[j..j + length.value], j + length.value + 1 - i))
    else None
  }

  /** The first tag at or after `from`. */
  function NextTag(s: string, from: nat): (r: Option<nat>)
    ensures r.Some? ==> from <= r.value && TagAt(s, r.value).Some?
    decreases |s| - from
  {
    if from >= |s| then None
    else if TagAt(s, from).Some? then Some(from)
    else NextTag(s, from + 1)
  }

  /** A text as its tags cut it. */
  datatype Lexed = End(text: string) | Markup(text: string, closing: bool, kind: Option<Kind>, next: Lexed)

  function Lex(s: string, from: nat): Lexed
    requires from <= |s|
    decreases |s| - from
  {
    var p := NextTag(s, from);
    if p.None? then End(s[from..])
    else
      var tag := TagAt(s, p.value).value;
      Markup(s[from..p.value], tag.closing, KindOf(tag.name), Lex(s, p.value + tag.width))
  }

  // ── the scan ───────────────────────────────────────────────────────────────

  datatype Open = Open(kind: Kind, start: nat)

  datatype State = State(plain: string, open: seq<Open>, entities: seq<Entity>)

  datatype Failure = UnknownTag

  /** The innermost open tag of a kind. */
  function Innermost(open: seq<Open>, kind: Kind): (r: Option<nat>)
    ensures r.Some? ==> r.value < |open| && open[r.value].kind == kind
  {
    if open == [] then None
    else if open[|open| - 1].kind == kind then Some(|open| - 1)
    else Innermost(open[..|open| - 1], kind)
  }

  function Pop(open: seq<Open>, i: nat): seq<Open>
    requires i < |open|
  {
    open[..i] + open[i + 1..]
  }

  function Closed(st: State, kind: Kind): State {
    var i := Innermost(st.open, kind);
    if i.None? then st
    else
      var start := st.open[i.value].start;
      State(st.plain, Pop(st.open, i.value),
            st.entities + if |st.plain| > start then [Entity(kind, start, |st.plain| - start)] else [])
  }

  /** One tag, with the unescaped text before it. */
  function Step(st: State, text: string, closing: bool, kind: Kind): State {
    var read := st.(plain := st.plain + text);
    if closing then Closed(read, kind)
    else read.(open := read.open + [Open(kind, |read.plain|)])
  }

  function Run(lexed: Lexed, unescape: string -> string, st: State): Result<State, Failure> {
    match lexed
    case End(text) => Ok(st.(plain := st.plain + unescape(text)))
    case Markup(text, closing, kind, next) =>
      if kind.None? then Err(UnknownTag)
      else Run(next, unescape, Step(st, unescape(text), closing, kind.value))
  }

  const START := State("", [], [])

  /** The plain text and its entities. */
  datatype Parsed = Parsed(plain: string, entities: seq<Entity>)

  function Finish(r: Result<State, Failure>): Result<Parsed, Failure> {
    match r
    case Ok(st) => Ok(Parsed(st.plain, SortByOffset(st.entities)))
    case Err(e) => Err(e)
  }

  function Parse(s: string, unescape: string -> string): Result<Parsed, Failure> {
    Finish(Run(Lex(s, 0), unescape, START))
  }

  // ── every input ────────────────────────────────────────────────────────────

  ghost predicate Inside(e: Entity, limit: nat) {
    0 <= e.offset && e.length > 0 && e.offset + e.length <= limit
  }

  /** Neither entity begins inside the other and ends outside it. */
  ghost predicate Nested(a: Entity, b: Entity) {
    || a.offset + a.length <= b.offset || b.offset + b.length <= a.offset
    || (a.offset <= b.offset && b.offset + b.length <= a.offset + a.length)
    || (b.offset <= a.offset && a.offset + a.length <= b.offset + b.length)
  }

  ghost predicate Laminar(entities: seq<Entity>) {
    forall i, j :: 0 <= i < |entities| && 0 <= j < |entities| && entities[i].kind == entities[j].kind
      ==> Nested(entities[i], entities[j])
  }

  ghost predicate Outside(o: Open, e: Entity) {
    o.start <= e.offset || o.start >= e.offset + e.length
  }

  ghost predicate Good(st: State) {
    && (forall i :: 0 <= i < |st.entities| ==> Inside(st.entities[i], |st.plain|))
    && (forall i :: 0 <= i < |st.open| ==> st.open[i].start <= |st.plain|)
    && (forall i, j :: 0 <= i < |st.open| && 0 <= j < |st.entities| && st.open[i].kind == st.entities[j].kind
          ==> Outside(st.open[i], st.entities[j]))
    && (forall i, j :: 0 <= i < j < |st.open| ==> st.open[i].start <= st.open[j].start)
    && Laminar(st.entities)
  }

  lemma {:induction false} InnermostIsLast(open: seq<Open>, kind: Kind)
    ensures var r := Innermost(open, kind);
      forall j :: (if r.Some? then r.value + 1 else 0) <= j < |open| ==> open[j].kind != kind
  {
    if open != [] && open[|open| - 1].kind != kind {
      InnermostIsLast(open[..|open| - 1], kind);
    }
  }

  lemma ReadKeeps(st: State, text: string)
    requires Good(st)
    ensures Good(st.(plain := st.plain + text))
  {
  }

  lemma OpenKeeps(st: State, kind: Kind)
    requires Good(st)
    ensures Good(st.(open := st.open + [Open(kind, |st.plain|)]))
  {
  }

  lemma PopKeeps(st: State, i: nat)
    requires Good(st) && i < |st.open|
    ensures Good(st.(open := Pop(st.open, i)))
  {
  }

  lemma NewEntityKeeps(st: State, o: Open)
    requires Good(st) && o.start < |st.plain|
    requires forall j :: 0 <= j < |st.entities| && st.entities[j].kind == o.kind ==> Outside(o, st.entities[j])
    requires forall j :: 0 <= j < |st.open| && st.open[j].kind == o.kind ==> st.open[j].start <= o.start
    ensures Good(st.(entities := st.entities + [Entity(o.kind, o.start, |st.plain| - o.start)]))
  {
  }

  lemma ClosedKeeps(st: State, kind: Kind)
    requires Good(st)
    ensures Good(Closed(st, kind))
  {
    hide Good, Innermost;
    var i := Innermost(st.open, kind);
    if i.Some? {
      var o, popped := st.open[i.value], st.(open := Pop(st.open, i.value));
      InnermostIsLast(st.open, kind);
      PopKeeps(st, i.value);
      PoppedIsLast(st, i.value);
      if |st.plain| > o.start {
        NewEntityKeeps(popped, o);
      } else {
        assert st.entities + [] == st.entities;
      }
    }
  }

  lemma PoppedIsLast(st: State, i: nat)
    requires Good(st) && i < |st.open| && forall j :: i < j < |st.open| ==> st.open[j].kind != st.open[i].kind
    ensures forall j :: 0 <= j < |st.entities| && st.entities[j].kind == st.open[i].kind ==> Outside(st.open[i], st.entities[j])
    ensures var rest := Pop(st.open, i);
      forall j :: 0 <= j < |rest| && rest[j].kind == st.open[i].kind ==> rest[j].start <= st.open[i].start
  {
  }

  lemma {:induction false} RunKeeps(lexed: Lexed, unescape: string -> string, st: State)
    requires Good(st)
    ensures var r := Run(lexed, unescape, st); r.Ok? ==> Good(r.value)
  {
    hide Good;
    match lexed
    case End(text) =>
      ReadKeeps(st, unescape(text));
    case Markup(text, closing, kind, next) =>
      if kind.Some? {
        var read := st.(plain := st.plain + unescape(text));
        ReadKeeps(st, unescape(text));
        if closing { ClosedKeeps(read, kind.value); } else { OpenKeeps(read, kind.value); }
        RunKeeps(next, unescape, Step(st, unescape(text), closing, kind.value));
      }
  }

  /** Whatever the text and however its tags are mixed up: the entities come sorted, none is empty or leaves
      the plain text, and two of one kind never cross. */
  lemma AnyTextIsSound(s: string, unescape: string -> string)
    requires Parse(s, unescape).Ok?
    ensures var r := Parse(s, unescape).value;
      && Sorted(r.entities)
      && (forall e :: e in r.entities ==> Inside(e, |r.plain|))
      && (forall a, b :: a in r.entities && b in r.entities && a.kind == b.kind ==> Nested(a, b))
  {
    var st := Run(Lex(s, 0), unescape, START).value;
    RunKeeps(Lex(s, 0), unescape, START);
    SortIsSorted(st.entities);
    SortPermutes(st.entities);
    forall e | e in SortByOffset(st.entities)
      ensures e in st.entities
    {
      assert e in multiset(SortByOffset(st.entities));
    }
  }

  // ── tags that are matched but not in the table ─────────────────────────────

  /** A tag that the pattern matches and the table does not hold. */
  ghost predicate UnknownAt(s: string, i: nat) {
    TagAt(s, i).Some? && KindOf(TagAt(s, i).value.name).None?
  }

  ghost predicate AnyUnknown(lexed: Lexed) {
    lexed.Markup? && (lexed.kind.None? || AnyUnknown(lexed.next))
  }

  lemma {:induction false} RunFails(lexed: Lexed, unescape: string -> string, st: State)
    ensures Run(lexed, unescape, st).Err? <==> AnyUnknown(lexed)
  {
    if lexed.Markup? && lexed.kind.Some? {
      RunFails(lexed.next, unescape, Step(st, unescape(lexed.text), lexed.closing, lexed.kind.value));
    }
  }

  lemma {:induction false} NextTagIsFirst(s: string, from: nat)
    ensures var r := NextTag(s, from);
      forall i: nat :: from <= i && (r.Some? ==> i < r.value) ==> TagAt(s, i).None?
    decreases |s| - from
  {
    hide NameLength;
    if from < |s| && TagAt(s, from).None? {
      NextTagIsFirst(s, from + 1);
    }
  }

  /** No tag begins inside another. */
  lemma TagsDoNotOverlap(s: string, i: nat, j: nat)
    requires TagAt(s, i).Some? && i < j < i + TagAt(s, i).value.width
    ensures TagAt(s, j).None?
  {
    var name := if i + 1 < |s| && s[i + 1] == '/' then i + 2 else i + 1;
    NameHasNoBracket(s, name);
  }

  lemma NameHasNoBracket(s: string, j: nat)
    requires NameLength(s, j).Some?
    ensures forall q :: j <= q < j + NameLength(s, j).value ==> s[q] != '<'
  {
    forall q | j <= q < j + NameLength(s, j).value
      ensures Folds(s[q]) != '<'
    {
    }
  }

  lemma {:induction false} LexMeets(s: string, from: nat)
    requires from <= |s|
    ensures AnyUnknown(Lex(s, from)) <==> exists i: nat :: from <= i && UnknownAt(s, i)
    decreases |s| - from
  {
    hide TagAt, KindOf;
    var p := NextTag(s, from);
    NextTagIsFirst(s, from);
    if p.Some? {
      var end := p.value + TagAt(s, p.value).value.width;
      LexMeets(s, end);
      forall i: nat | p.value < i < end
        ensures !UnknownAt(s, i)
      {
        TagsDoNotOverlap(s, p.value, i);
      }
      if UnknownAt(s, p.value) {
        assert AnyUnknown(Lex(s, from));
      }
    }
  }

  /** Parsing fails exactly when some tag of the text is matched only by ignoring case beyond ASCII. */
  lemma FailsExactlyWhen(s: string, unescape: string -> string)
    ensures Parse(s, unescape).Err? <==> exists i: nat :: UnknownAt(s, i)
  {
    RunFails(Lex(s, 0), unescape, START);
    LexMeets(s, 0);
  }

  ghost predicate OddLetter(c: char) {
    c == '\U{0130}' || c == '\U{0131}' || c == '\U{017F}'
  }

  lemma OddIsUnknown(t: string, k: nat)
    requires k < |t| && OddLetter(t[k])
    ensures KindOf(t).None?
  {
    assert Lower(t[k]) == t[k];
    NotSpelled(t, k, "b");
    NotSpelled(t, k, "strong");
    NotSpelled(t, k, "i");
    NotSpelled(t, k, "em");
    NotSpelled(t, k, "code");
    NotSpelled(t, k, "pre");
  }

  lemma NotSpelled(t: string, k: nat, name: string)
    requires k < |t| && Lower(t[k]) as int > 'z' as int && forall i :: 0 <= i < |name| ==> name[i] <= 'z'
    ensures !Spells(t, name)
  {
    assert k < |name| ==> Lower(t[k]) != name[k];
  }

  lemma MatchedName(s: string, j: nat) returns (name: string)
    requires NameLength(s, j).Some?
    ensures NameAt(s, j, name) && |name| == NameLength(s, j).value && InTable(name)
  {
    hide NameAt;
    name :| NameAt(s, j, name) && |name| == NameLength(s, j).value && InTable(name);
  }

  lemma PlainLettersSpell(t: string, name: string)
    requires |t| == |name| && InTable(name)
    requires forall k :: 0 <= k < |t| ==> Folds(t[k]) == name[k] && !OddLetter(t[k])
    ensures KindOf(t).Some?
  {
    forall k | 0 <= k < |t|
      ensures Lower(t[k]) == name[k]
    {
      assert Folds(t[k]) == Lower(t[k]);
    }
    assert Spells(t, name);
  }

  /** The unknown tags are those spelled with one of the three odd letters. */
  lemma UnknownIsOdd(s: string, i: nat)
    requires TagAt(s, i).Some?
    ensures UnknownAt(s, i) <==> exists k :: 0 <= k < |TagAt(s, i).value.name| && OddLetter(TagAt(s, i).value.name[k])
  {
    hide KindOf, NameLength;
    var t := TagAt(s, i).value.name;
    var j := if i + 1 < |s| && s[i + 1] == '/' then i + 2 else i + 1;
    if k :| 0 <= k < |t| && OddLetter(t[k]) {
      OddIsUnknown(t, k);
    } else {
      var name := MatchedName(s, j);
      forall k | 0 <= k < |t|
        ensures Folds(t[k]) == name[k]
      {
        LetterFolds(s, j, name, t, k);
      }
      PlainLettersSpell(t, name);
    }
  }

  lemma LetterFolds(s: string, j: nat, name: string, t: string, k: nat)
    requires NameAt(s, j, name) && t == s[j..j + |name|] && k < |t|
    ensures Folds(t[k]) == name[k]
  {
    var q := j + k;
    assert t[k] == s[q] && Folds(s[q]) == name[q - j];
  }

  ghost predicate InTable(name: string) {
    name == "b" || name == "strong" || name == "i" || name == "em" || name == "code" || name == "pre"
  }

  /** One such text: its second tag is that of an italic, spelled with a dotless i. */
  lemma FailsOnDotlessI(s: string, unescape: string -> string)
    requires s == "<b>x</b><\U{0131}>"
    ensures Parse(s, unescape).Err?
  {
    hide Parse, TagAt, KindOf;
    DotlessIsUnknown(s, 8);
    FailsExactlyWhen(s, unescape);
  }

  lemma DotlessIsUnknown(s: string, i: nat)
    requires |s| == i + 3 && s[i] == '<' && s[i + 1] == '\U{0131}' && s[i + 2] == '>'
    ensures UnknownAt(s, i)
  {
    hide KindOf;
    assert !NameAt(s, i + 1, "b") && NameAt(s, i + 1, "i");
    var t := s[i + 1..i + 2];
    assert t[0] == '\U{0131}';
    OddIsUnknown(t, 0);
  }

  // ── printing a tree and parsing it back ────────────────────────────────────

  /** Texts and elements, in order; an element's two tags may be any spellings of its kind. */
  datatype Forest = Nil | Text(text: string, rest: Forest) | Elem(kind: Kind, open: string, close: string, inside: Forest, rest: Forest)

  ghost predicate WellTagged(f: Forest) {
    match f
    case Nil => true
    case Text(_, rest) => WellTagged(rest)
    case Elem(kind, open, close, inside, rest) =>
      Names(open, kind) && Names(close, kind) && WellTagged(inside) && WellTagged(rest)
  }

  /** The names that tags of a kind have, in capital or small letters. */
  predicate Names(t: string, kind: Kind) {
    match kind
    case Bold => Spells(t, "b") || Spells(t, "strong")
    case Italic => Spells(t, "i") || Spells(t, "em")
    case Mono => Spells(t, "code") || Spells(t, "pre")
  }

  /** What stands for a letter when case is ignored: the letter, its capital, and three characters beyond ASCII. */
  lemma LetterTable(c: char, letter: char)
    requires 'a' <= letter <= 'z'
    ensures Folds(c) == letter <==>
      || c == letter || c as int + 32 == letter as int
      || (letter == 'i' && (c == '\U{0130}' || c == '\U{0131}')) || (letter == 's' && c == '\U{017F}')
  {
  }

  lemma NamesAreLookedUp(t: string, kind: Kind)
    ensures Names(t, kind) <==> KindOf(t) == Some(kind)
  {
    OneName(t, "b", "i");
    OneName(t, "b", "em");
    OneName(t, "b", "code");
    OneName(t, "b", "pre");
    OneName(t, "strong", "i");
    OneName(t, "strong", "em");
    OneName(t, "strong", "code");
    OneName(t, "strong", "pre");
    OneName(t, "i", "code");
    OneName(t, "i", "pre");
    OneName(t, "em", "code");
    OneName(t, "em", "pre");
    hide Spells;
  }

  lemma OneName(t: string, a: string, b: string)
    requires |a| != |b| || (a != "" && a[0] != b[0])
    ensures !(Spells(t, a) && Spells(t, b))
  {
  }

  function Escaped(c: char): string {
    match c
    case '&' => "&amp;"
    case '<' => "&lt;"
    case '>' => "&gt;"
    case _ => [c]
  }

  function Escape(t: string): string {
    if t == "" then "" else Escaped(t[0]) + Escape(t[1..])
  }

  /** What is assumed of `html.unescape`: it undoes the escaping of text. */
  ghost predicate Undoes(unescape: string -> string) {
    forall t :: UndoesOn(unescape, t)
  }

  ghost predicate UndoesOn(unescape: string -> string, t: string) {
    unescape(Escape(t)) == t
  }

  function OpenTag(name: string): string { "<" + name + ">" }

  function CloseTag(name: string): string { "</" + name + ">" }

  function Render(f: Forest): string {
    match f
    case Nil => ""
    case Text(text, rest) => Escape(text) + Render(rest)
    case Elem(_, open, close, inside, rest) => OpenTag(open) + Render(inside) + CloseTag(close) + Render(rest)
  }

  function PlainText(f: Forest): string {
    match f
    case Nil => ""
    case Text(text, rest) => text + PlainText(rest)
    case Elem(_, _, _, inside, rest) => PlainText(inside) + PlainText(rest)
  }

  function Own(kind: Kind, base: nat, length: nat): seq<Entity> {
    if length > 0 then [Entity(kind, base, length)] else []
  }

  /** One entity for each element that holds any text, inner ones first. */
  function Spans(f: Forest, base: nat): seq<Entity>
  {
    match f
    case Nil => []
    case Text(text, rest) => Spans(rest, base + |text|)
    case Elem(kind, _, _, inside, rest) =>
      var length := |PlainText(inside)|;
      Spans(inside, base) + Own(kind, base, length) + Spans(rest, base + length)
  }

  lemma {:induction false} EscapeJoins(a: string, b: string)
    ensures Escape(a + b) == Escape(a) + Escape(b)
  {
    hide Escaped;
    if a == "" {
      assert a + b == b;
    } else {
      EscapeJoins(a[1..], b);
      assert (a + b)[1..] == a[1..] + b;
      assert Escaped(a[0]) + (Escape(a[1..]) + Escape(b)) == (Escaped(a[0]) + Escape(a[1..])) + Escape(b);
    }
  }

  lemma {:induction false} EscapedHasNoTag(t: string)
    ensures '<' !in Escape(t)
  {
    if t != "" {
      EscapedHasNoTag(t[1..]);
    }
  }

  // Cutting printed text.

  lemma NameAfter(h: string, s: string, j: nat, name: string)
    ensures NameAt(h + s, |h| + j, name) == NameAt(s, j, name)
  {
    if j + |name| < |s| {
      forall q | j <= q < j + |name|
        ensures (h + s)[|h| + q] == s[q]
      {
      }
      if NameAt(h + s, |h| + j, name) {
        forall q | j <= q < j + |name|
          ensures Folds(s[q]) == name[q - j]
        {
          assert Folds((h + s)[|h| + q]) == name[(|h| + q) - (|h| + j)];
        }
      }
    }
  }

  lemma TagAfter(h: string, s: string, i: nat)
    ensures TagAt(h + s, |h| + i) == TagAt(s, i)
  {
    hide NameLength;
    if i < |s| && s[i] == '<' {
      var j := if i + 1 < |s| && s[i + 1] == '/' then i + 2 else i + 1;
      LengthAfter(h, s, j);
      var n := NameLength(s, j);
      if n.Some? {
        SliceAfter(h, s, j, j + n.value);
      }
    }
  }

  lemma LengthAfter(h: string, s: string, j: nat)
    ensures NameLength(h + s, |h| + j) == NameLength(s, j)
  {
    hide NameAt;
    NameAfter(h, s, j, "b");
    NameAfter(h, s, j, "strong");
    NameAfter(h, s, j, "i");
    NameAfter(h, s, j, "em");
    NameAfter(h, s, j, "code");
    NameAfter(h, s, j, "pre");
  }

  lemma SliceAfter(h: string, s: string, i: nat, j: nat)
    requires i <= j <= |s|
    ensures (h + s)[|h| + i..|h| + j] == s[i..j]
  {
  }

  lemma {:induction false} NextAfter(h: string, s: string, from: nat)
    ensures var r := NextTag(s, from);
      NextTag(h + s, |h| + from) == if r.None? then None else Some(|h| + r.value)
    decreases |s| - from
  {
    hide TagAt;
    if from < |s| {
      TagAfter(h, s, from);
      if TagAt(s, from).None? {
        NextAfter(h, s, from + 1);
      }
    }
  }

  lemma LexEnd(s: string, from: nat)
    requires from <= |s| && NextTag(s, from).None?
    ensures Lex(s, from) == End(s[from..])
  {
    hide TagAt, NextTag, KindOf;
  }

  lemma LexTag(s: string, from: nat, p: nat)
    requires from <= |s| && NextTag(s, from) == Some(p)
    ensures var tag := TagAt(s, p).value;
      Lex(s, from) == Markup(s[from..p], tag.closing, KindOf(tag.name), Lex(s, p + tag.width))
  {
    hide TagAt, NextTag, KindOf;
  }

  /** Text before the cursor does not matter. */
  lemma {:induction false} LexAfter(h: string, s: string, from: nat)
    requires from <= |s|
    ensures Lex(h + s, |h| + from) == Lex(s, from)
    decreases |s| - from
  {
    hide Lex, TagAt, NextTag, KindOf;
    NextAfter(h, s, from);
    var p := NextTag(s, from);
    if p.None? {
      LexEnd(s, from);
      LexEnd(h + s, |h| + from);
      assert (h + s)[|h| + from..] == s[from..];
    } else {
      TagAfter(h, s, p.value);
      LexTag(s, from, p.value);
      LexTag(h + s, |h| + from, |h| + p.value);
      SliceAfter(h, s, from, p.value);
      LexAfter(h, s, p.value + TagAt(s, p.value).value.width);
    }
  }

  lemma {:induction false} NextSkips(s: string, from: nat, end: nat)
    requires from <= end <= |s| && forall i :: from <= i < end ==> s[i] != '<'
    ensures NextTag(s, from) == NextTag(s, end)
    decreases end - from
  {
    if from < end {
      NextSkips(s, from + 1, end);
    }
  }

  /** How a tag of either direction is written. */
  function Written(closing: bool, name: string): string {
    if closing then CloseTag(name) else OpenTag(name)
  }

  lemma LowerFolds(c: char, letter: char)
    requires Lower(c) == letter && 'a' <= letter <= 'z'
    ensures Folds(c) == letter && c != '>' && c != '<' && c != '/'
  {
  }

  ghost predicate Letters(name: string) {
    forall k :: 0 <= k < |name| ==> 'a' <= name[k] <= 'z'
  }

  lemma SpelledIsAt(s: string, j: nat, t: string, name: string)
    requires Spells(t, name) && Letters(name)
    requires j + |t| < |s| && s[j..j + |t|] == t && s[j + |t|] == '>'
    ensures NameAt(s, j, name)
  {
    forall q | j <= q < j + |name|
      ensures Folds(s[q]) == name[q - j]
    {
      assert s[q] == t[q - j];
      LowerFolds(t[q - j], name[q - j]);
    }
  }

  lemma NoLonger(s: string, j: nat, a: string, b: string)
    requires NameAt(s, j, a) && |a| < |b| && Letters(b)
    ensures !NameAt(s, j, b)
  {
    assert Folds(s[j + |a|]) != b[|a|];
  }

  lemma OneLength(s: string, j: nat, a: string, b: string)
    requires NameAt(s, j, a) && Letters(a) && Letters(b)
    ensures NameAt(s, j, b) ==> |a| == |b|
  {
    if |a| < |b| {
      NoLonger(s, j, a, b);
    } else if |b| < |a| {
      if NameAt(s, j, b) {
        NoLonger(s, j, b, a);
        assert false;
      }
    }
  }

  lemma LengthIs(s: string, j: nat, name: string)
    requires NameAt(s, j, name) && Letters(name) && InTable(name)
    ensures NameLength(s, j) == Some(|name|)
  {
    hide NameAt;
    OneLength(s, j, name, "b");
    OneLength(s, j, name, "strong");
    OneLength(s, j, name, "i");
    OneLength(s, j, name, "em");
    OneLength(s, j, name, "code");
    OneLength(s, j, name, "pre");
  }

  lemma KnownName(t: string) returns (name: string)
    requires KindOf(t).Some?
    ensures Spells(t, name) && InTable(name) && Letters(name)
  {
    hide Spells;
    name :| Spells(t, name) && InTable(name);
  }

  lemma WrittenParts(closing: bool, t: string, rest: string)
    ensures var s, j := Written(closing, t) + rest, if closing then 2 else 1;
      && |Written(closing, t)| == j + |t| + 1
      && s[0] == '<' && (closing ==> s[1] == '/')
      && j + |t| < |s| && s[j..j + |t|] == t && s[j + |t|] == '>'
  {
    var front := if closing then "</" else "<";
    var back := t + (">" + rest);
    assert Written(closing, t) + rest == front + back;
    SliceAfter(front, back, 0, |t|);
    assert back[0..|t|] == t;
  }

  /** A written tag is found where it stands. */
  lemma WrittenIsTag(closing: bool, t: string, rest: string)
    requires KindOf(t).Some?
    ensures TagAt(Written(closing, t) + rest, 0) == Some(Tag(closing, t, |Written(closing, t)|))
  {
    hide NameLength, KindOf, NameAt, Spells, Written;
    var s, j := Written(closing, t) + rest, if closing then 2 else 1;
    WrittenParts(closing, t, rest);
    var name := KnownName(t);
    SpelledIsAt(s, j, t, name);
    SameSpelling(t, name);
    LengthIs(s, j, name);
    NotSlash(t, name);
    assert s[j] == s[j..j + |t|][0];
  }

  lemma SameSpelling(t: string, name: string)
    requires Spells(t, name)
    ensures |t| == |name|
  {
  }

  lemma NotSlash(t: string, name: string)
    requires Spells(t, name) && Letters(name) && InTable(name)
    ensures t != "" && t[0] != '/'
  {
    LowerFolds(t[0], name[0]);
  }

  /** Escaped text up to a written tag is one piece, and what follows is cut on its own. */
  lemma LexWritten(e: string, closing: bool, t: string, rest: string)
    requires '<' !in e && KindOf(t).Some?
    ensures Lex(e + Written(closing, t) + rest, 0) == Markup(e, closing, KindOf(t), Lex(rest, 0))
  {
    hide Lex, TagAt, NextTag, KindOf, Written;
    var w := Written(closing, t);
    var s := e + w + rest;
    assert s == e + (w + rest);
    NextSkips(s, 0, |e|);
    WrittenIsTag(closing, t, rest);
    TagAfter(e, w + rest, 0);
    NextHere(s, |e|);
    LexTag(s, 0, |e|);
    assert s[0..|e|] == e;
    LexAfter(e + w, rest, 0);
  }

  lemma NextHere(s: string, i: nat)
    requires TagAt(s, i).Some?
    ensures NextTag(s, i) == Some(i)
  {
    hide TagAt;
    assert i + TagAt(s, i).value.width <= |s|;
  }

  // Running printed text.

  function Go(s: string, unescape: string -> string, st: State): Result<State, Failure> {
    Run(Lex(s, 0), unescape, st)
  }

  lemma GoWritten(t: string, closing: bool, name: string, rest: string, unescape: string -> string, st: State)
    requires Undoes(unescape) && KindOf(name).Some?
    ensures Go(Escape(t) + Written(closing, name) + rest, unescape, st)
         == Go(rest, unescape, Step(st, t, closing, KindOf(name).value))
  {
    hide Lex, KindOf, Step, Written;
    assert UndoesOn(unescape, t);
    EscapedHasNoTag(t);
    LexWritten(Escape(t), closing, name, rest);
  }

  lemma GoText(t: string, unescape: string -> string, st: State)
    requires Undoes(unescape)
    ensures Go(Escape(t), unescape, st) == Ok(st.(plain := st.plain + t))
  {
    assert UndoesOn(unescape, t);
    EscapedHasNoTag(t);
    NextSkips(Escape(t), 0, |Escape(t)|);
    LexEnd(Escape(t), 0);
    assert Escape(t)[0..] == Escape(t);
  }

  /** Closing the element opened last restores the stack and adds its entity. */
  lemma ClosesLast(before: State, st: State, kind: Kind, start: nat, text: string)
    requires st.open == before.open + [Open(kind, start)] && start <= |st.plain| + |text|
    ensures var length := |st.plain| + |text| - start;
      Step(st, text, true, kind)
      == State(st.plain + text, before.open, st.entities + Own(kind, start, length))
  {
    assert st.open[..|before.open|] + st.open[|before.open| + 1..] == before.open;
  }

  lemma Opens(st: State, t: string, kind: Kind)
    ensures Step(st, t, false, kind) == State(st.plain + t, st.open + [Open(kind, |st.plain + t|)], st.entities)
  {
  }

  lemma Regroup(e: string, o: string, i: string, c: string, r: string, k: string)
    ensures e + (o + i + c + r) + k == e + o + (i + (c + (r + k)))
  {
  }

  lemma Join3<T>(a: seq<T>, b: seq<T>, c: seq<T>)
    ensures a + (b + c) == a + b + c
  {
  }

  lemma NothingPending(x: string, k: string)
    ensures Escape("") + x + k == x + k
  {
  }

  /** Running a printed tree in front of `k`: the text read is the tree's, the stack is as before, and the
      tree's entities are appended. Text not yet followed by a tag is still pending. */
  lemma {:induction false} RunsForest(f: Forest, t: string, k: string, unescape: string -> string, st: State)
    returns (t': string, st': State)
    requires Undoes(unescape) && WellTagged(f)
    ensures Go(Escape(t) + Render(f) + k, unescape, st) == Go(Escape(t') + k, unescape, st')
    ensures st'.plain + t' == st.plain + t + PlainText(f)
    ensures st'.open == st.open
    ensures st'.entities == st.entities + Spans(f, |st.plain| + |t|)
    decreases f, 0
  {
    hide Go, KindOf, Step, Written, Undoes, Escape, Own, OpenTag, CloseTag;
    match f
    case Nil =>
      t', st' := t, st;
      assert Escape(t) + "" + k == Escape(t) + k;
    case Text(text, rest) =>
      EscapeJoins(t, text);
      Join3(Escape(t), Escape(text), Render(rest));
      Join3(st.plain, t, text);
      Join3(st.plain + t, text, PlainText(rest));
      t', st' := RunsForest(rest, t + text, k, unescape, st);
    case Elem(kind, open, close, inside, rest) =>
      var base, length := |st.plain| + |t|, |PlainText(inside)|;
      NamesAreLookedUp(open, kind);
      NamesAreLookedUp(close, kind);
      var after := RunsElem(open, close, inside, t, Render(rest) + k, unescape, st);
      WrittenIs(open, close);
      Regroup(Escape(t), Written(false, open), Render(inside), Written(true, close), Render(rest), k);
      t', st' := RunsForest(rest, "", k, unescape, after);
      NothingPending(Render(rest), k);
      Glued(after.plain, st.plain + t, PlainText(inside), PlainText(rest));
      Collected(st.entities, Spans(inside, base), Own(kind, base, length), Spans(rest, base + length));
  }

  lemma Glued(whole: string, front: string, inside: string, rest: string)
    requires whole == front + inside
    ensures whole + "" + rest == front + (inside + rest)
  {
  }

  lemma Collected(a: seq<Entity>, b: seq<Entity>, c: seq<Entity>, d: seq<Entity>)
    ensures (a + b + c) + d == a + (b + c + d)
  {
  }

  lemma WrittenIs(open: string, close: string)
    ensures Written(false, open) == OpenTag(open) && Written(true, close) == CloseTag(close)
  {
  }

  /** One element: open, inside, close. */
  lemma {:induction false} RunsElem(open: string, close: string, inside: Forest, t: string, after: string,
                                    unescape: string -> string, st: State)
    returns (closed: State)
    requires Undoes(unescape) && WellTagged(inside) && KindOf(open).Some? && KindOf(close) == KindOf(open)
    ensures Go(Escape(t) + Written(false, open) + (Render(inside) + (Written(true, close) + after)), unescape, st)
         == Go(after, unescape, closed)
    ensures var base, length := |st.plain| + |t|, |PlainText(inside)|;
      closed == State(st.plain + t + PlainText(inside), st.open,
                      st.entities + Spans(inside, base) + Own(KindOf(open).value, base, length))
    decreases inside, 1
  {
    hide Go, KindOf, Step, Written, Undoes, Escape;
    var kind, k := KindOf(open).value, Written(true, close) + after;
    GoWritten(t, false, open, Render(inside) + k, unescape, st);
    Opens(st, t, kind);
    var entered := Step(st, t, false, kind);
    var t1, st1 := RunsForest(inside, "", k, unescape, entered);
    NothingPending(Render(inside), k);
    Join3(Escape(t1), Written(true, close), after);
    GoWritten(t1, true, close, after, unescape, st1);
    assert entered.plain + "" == entered.plain;
    ClosesLast(st, st1, kind, |st.plain + t|, t1);
    closed := Step(st1, t1, true, kind);
  }

  /** Printing any tree of tags over escaped text and parsing it gives back its text, and one entity for each
      element that holds text. */
  lemma TreeRoundTrip(f: Forest, unescape: string -> string)
    requires Undoes(unescape) && WellTagged(f)
    ensures Parse(Render(f), unescape) == Ok(Parsed(PlainText(f), SortByOffset(Spans(f, 0))))
  {
    hide Run, Spans, Render, PlainText, Lex, Undoes, SortByOffset;
    var t, st := RunsForest(f, "", "", unescape, START);
    NothingPending(Render(f), "");
    assert Render(f) + "" == Render(f) && Escape(t) + "" == Escape(t);
    GoText(t, unescape, st);
    assert "" + "" + PlainText(f) == PlainText(f);
    assert [] + Spans(f, 0) == Spans(f, 0);
  }

  // ── a decoder that meets the assumption ────────────────────────────────────

  predicate Starts(s: string, front: string) {
    |front| <= |s| && s[..|front|] == front
  }

  predicate Special(c: char) {
    c == '&' || c == '<' || c == '>'
  }

  /** The character whose reference the string starts with. */
  function Reference(s: string): (r: Option<char>)
    ensures r.Some? ==> Special(r.value) && Starts(s, Escaped(r.value))
  {
    if Starts(s, Escaped('&')) then Some('&')
    else if Starts(s, Escaped('<')) then Some('<')
    else if Starts(s, Escaped('>')) then Some('>')
    else None
  }

  /** Decodes the three references that escaping writes. */
  function Basic(s: string): string
    decreases |s|
  {
    if s == "" then ""
    else
      var c := Reference(s);
      if c.Some? then [c.value] + Basic(s[|Escaped(c.value)|..]) else [s[0]] + Basic(s[1..])
  }

  lemma ReferenceIs(c: char, s: string)
    ensures Reference(Escaped(c) + s) == if Special(c) then Some(c) else None
  {
    var whole := Escaped(c) + s;
    assert whole[..|Escaped(c)|] == Escaped(c);
    if Special(c) {
      assert whole[1] == Escaped(c)[1];
    } else {
      assert whole[0] == c;
    }
  }

  lemma BasicStep(c: char, s: string)
    ensures Basic(Escaped(c) + s) == [c] + Basic(s)
  {
    hide Reference, Escaped;
    var whole := Escaped(c) + s;
    ReferenceIs(c, s);
    PlainIs(c);
    assert whole[|Escaped(c)|..] == s;
  }

  lemma PlainIs(c: char)
    ensures Escaped(c) != "" && (!Special(c) ==> Escaped(c) == [c])
  {
  }

  lemma {:induction false} BasicUndoes(t: string)
    ensures Basic(Escape(t)) == t
  {
    if t != "" {
      BasicUndoes(t[1..]);
      BasicStep(t[0], Escape(t[1..]));
    }
  }

  // ── the loop ───────────────────────────────────────────────────────────────

  /** The code's search from the end of the stack. */
  method Search(open: seq<Open>, kind: Kind) returns (found: Option<nat>)
    ensures found == Innermost(open, kind)
  {
    var index := |open|;
    assert open[..index] == open;
    while index > 0
      invariant 0 <= index <= |open| && Innermost(open, kind) == Innermost(open[..index], kind)
    {
      index := index - 1;
      if open[index].kind == kind {
        return Some(index);
      }
      assert open[..index + 1][..index] == open[..index];
    }
    return None;
  }

  method ParseHtml(text: string, unescape: string -> string) returns (r: Result<Parsed, Failure>)
    ensures r == Parse(text, unescape)
  {
    hide Lex, TagAt, KindOf, Innermost, SortByOffset;
    var entities: seq<Entity>, plain, open: seq<Open> := [], "", [];
    var cursor, plainLength := 0, 0;
    ghost var all := Go(text, unescape, START);
    var p := NextTag(text, cursor);
    while p.Some?
      invariant cursor <= |text| && p == NextTag(text, cursor) && plainLength == |plain|
      invariant Run(Lex(text, cursor), unescape, State(plain, open, entities)) == all
      decreases |text| - cursor
    {
      var tag := TagAt(text, p.value).value;
      ghost var before := State(plain, open, entities);
      LexTag(text, cursor, p.value);
      var chunk := unescape(text[cursor..p.value]);
      plain := plain + chunk;
      plainLength := plainLength + |chunk|;
      var kind := KindOf(tag.name);
      if kind.None? {
        return Err(UnknownTag);
      }
      if !tag.closing {
        open := open + [Open(kind.value, plainLength)];
      } else {
        var at := Search(open, kind.value);
        if at.Some? {
          var start := open[at.value].start;
          open := open[..at.value] + open[at.value + 1..];
          if plainLength > start {
            entities := entities + [Entity(kind.value, start, plainLength - start)];
          }
        }
      }
      assert State(plain, open, entities) == Step(before, chunk, tag.closing, kind.value);
      cursor := p.value + tag.width;
      p := NextTag(text, cursor);
    }
    LexEnd(text, cursor);
    plain := plain + unescape(text[cursor..]);
    return Ok(Parsed(plain, SortByOffset(entities)));
  }
}
