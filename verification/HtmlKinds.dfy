/** Which entities any text gets: each kind of tag is matched on its own, like brackets, whatever the other kinds do
    in between. */
module HtmlKinds {
  import opened Common
  import opened Entities
  import opened Html

  /** The entities of one kind, from its own tags alone: a closing tag ends the last open one, if there is one, and
      gives an entity if there is text in between. `at` is the length of the text read so far. */
  function Alone(lexed: Lexed, unescape: string -> string, kind: Kind, at: nat, starts: seq<nat>): seq<Entity> {
    match lexed
    case End(_) => []
    case Markup(text, closing, found, next) =>
      var here := at + |unescape(text)|;
      if found != Some(kind) || (closing && starts == []) then Alone(next, unescape, kind, here, starts)
      else if !closing then Alone(next, unescape, kind, here, starts + [here])
      else
        Given(kind, starts[|starts| - 1], here) + Alone(next, unescape, kind, here, ButLast(starts))
  }

  /** The text between and behind the tags. */
  function TextOf(lexed: Lexed, unescape: string -> string): string {
    match lexed
    case End(text) => unescape(text)
    case Markup(text, _, _, next) => unescape(text) + TextOf(next, unescape)
  }

  function EntitiesOf(entities: seq<Entity>, kind: Kind): seq<Entity> {
    if entities == [] then []
    else
      var n := |entities| - 1;
      EntitiesOf(entities[..n], kind) + if entities[n].kind == kind then [entities[n]] else []
  }

  function StartsOf(open: seq<Open>, kind: Kind): seq<nat> {
    if open == [] then []
    else
      var n := |open| - 1;
      StartsOf(open[..n], kind) + if open[n].kind == kind then [open[n].start] else []
  }

  lemma {:induction false} EntitiesOfJoin(a: seq<Entity>, b: seq<Entity>, kind: Kind)
    ensures EntitiesOf(a + b, kind) == EntitiesOf(a, kind) + EntitiesOf(b, kind)
  {
    if b == [] {
      assert a + b == a;
    } else {
      var n := |b| - 1;
      assert (a + b)[..|a| + n] == a + b[..n];
      EntitiesOfJoin(a, b[..n], kind);
    }
  }

  lemma StartsOfMore(open: seq<Open>, o: Open, kind: Kind)
    ensures StartsOf(open + [o], kind) == StartsOf(open, kind) + if o.kind == kind then [o.start] else []
  {
    assert (open + [o])[..|open|] == open;
  }

  function ButLast(starts: seq<nat>): seq<nat> {
    if starts == [] then [] else starts[..|starts| - 1]
  }

  lemma ButLastOf(starts: seq<nat>, last: nat)
    ensures ButLast(starts + [last]) == starts && (starts + [last])[|starts|] == last
  {
  }

  lemma {:induction false} NoneOpen(open: seq<Open>, kind: Kind)
    ensures Innermost(open, kind).None? <==> StartsOf(open, kind) == []
  {
    if open != [] {
      NoneOpen(open[..|open| - 1], kind);
    }
  }

  /** The innermost open tag of a kind has the last start of that kind. */
  lemma {:induction false} InnermostIsLastStart(open: seq<Open>, kind: Kind)
    requires Innermost(open, kind).Some?
    ensures var starts := StartsOf(open, kind);
      starts != [] && open[Innermost(open, kind).value].start == starts[|starts| - 1]
  {
    var n := |open| - 1;
    if open[n].kind != kind {
      InnermostIsLastStart(open[..n], kind);
      assert StartsOf(open, kind) == StartsOf(open[..n], kind);
    }
  }

  /** Taking it out takes that start and no other. */
  lemma {:induction false} PopTakesLast(open: seq<Open>, kind: Kind, other: Kind)
    requires Innermost(open, kind).Some?
    ensures var starts := StartsOf(open, other);
      StartsOf(Pop(open, Innermost(open, kind).value), other) == if other == kind then ButLast(starts) else starts
  {
    var n := |open| - 1;
    var i := Innermost(open, kind).value;
    if open[n].kind == kind {
      assert Pop(open, n) == open[..n];
      ButLastOf(StartsOf(open[..n], kind), open[n].start);
    } else {
      PopTakesLast(open[..n], kind, other);
      assert Pop(open, i) == Pop(open[..n], i) + [open[n]];
      StartsOfMore(Pop(open[..n], i), open[n], other);
      assert StartsOf(open, kind) == StartsOf(open[..n], kind);
    }
  }

  function Given(kind: Kind, start: nat, here: nat): seq<Entity> {
    if here > start then [Entity(kind, start, here - start)] else []
  }

  lemma OpenAlone(st: State, text: string, found: Kind, kind: Kind)
    ensures var next := Step(st, text, false, found);
      && EntitiesOf(next.entities, kind) == EntitiesOf(st.entities, kind)
      && StartsOf(next.open, kind) == StartsOf(st.open, kind) + if found == kind then [|st.plain| + |text|] else []
  {
    StartsOfMore(st.open, Open(found, |st.plain + text|), kind);
  }

  lemma CloseAlone(st: State, text: string, found: Kind, kind: Kind)
    ensures var next, starts := Step(st, text, true, found), StartsOf(st.open, kind);
      if found != kind || starts == [] then
        EntitiesOf(next.entities, kind) == EntitiesOf(st.entities, kind) && StartsOf(next.open, kind) == starts
      else
        && StartsOf(next.open, kind) == ButLast(starts)
        && EntitiesOf(next.entities, kind)
             == EntitiesOf(st.entities, kind) + Given(kind, starts[|starts| - 1], |st.plain| + |text|)
  {
    hide StartsOf, ButLast, EntitiesOf, Pop;
    NoneOpen(st.open, found);
    if Innermost(st.open, found).Some? {
      var start := st.open[Innermost(st.open, found).value].start;
      PopTakesLast(st.open, found, kind);
      InnermostIsLastStart(st.open, found);
      var own := Given(found, start, |st.plain| + |text|);
      EntitiesOfJoin(st.entities, own, kind);
      OneEntity(own, kind);
      assert EntitiesOf(st.entities, kind) + [] == EntitiesOf(st.entities, kind);
    }
  }

  lemma OneEntity(own: seq<Entity>, kind: Kind)
    requires |own| <= 1
    ensures EntitiesOf(own, kind) == if own != [] && own[0].kind == kind then own else []
  {
  }

  lemma {:induction false} RunAlone(lexed: Lexed, unescape: string -> string, st: State, kind: Kind)
    requires Run(lexed, unescape, st).Ok?
    ensures var end := Run(lexed, unescape, st).value;
      && end.plain == st.plain + TextOf(lexed, unescape)
      && EntitiesOf(end.entities, kind)
           == EntitiesOf(st.entities, kind) + Alone(lexed, unescape, kind, |st.plain|, StartsOf(st.open, kind))
  {
    hide Step, EntitiesOf, StartsOf, ButLast;
    StepReads(lexed, unescape, st);
    match lexed
    case End(_) =>
    case Markup(text, closing, found, next) =>
      var read := unescape(text);
      if closing {
        CloseAlone(st, read, found.value, kind);
      } else {
        OpenAlone(st, read, found.value, kind);
        assert StartsOf(st.open, kind) + [] == StartsOf(st.open, kind);
      }
      RunAlone(next, unescape, Step(st, read, closing, found.value), kind);
  }

  lemma StepReads(lexed: Lexed, unescape: string -> string, st: State)
    ensures lexed.Markup? && lexed.kind.Some? ==>
      Step(st, unescape(lexed.text), lexed.closing, lexed.kind.value).plain == st.plain + unescape(lexed.text)
  {
  }

  lemma {:induction false} EntitiesOfCount(entities: seq<Entity>, kind: Kind, e: Entity)
    ensures multiset(EntitiesOf(entities, kind))[e] == if e.kind == kind then multiset(entities)[e] else 0
  {
    if entities != [] {
      var n := |entities| - 1;
      EntitiesOfCount(entities[..n], kind, e);
      assert entities == entities[..n] + [entities[n]];
    }
  }

  /** For every text that parses: the plain text is the text between the tags, and the entities of each kind are those
      of its own tags alone. With the order by offset that is the whole result. */
  lemma KindsDoNotInterfere(s: string, unescape: string -> string, kind: Kind)
    requires Parse(s, unescape).Ok?
    ensures var p, lexed := Parse(s, unescape).value, Lex(s, 0);
      p.plain == TextOf(lexed, unescape)
      && multiset(EntitiesOf(p.entities, kind)) == multiset(Alone(lexed, unescape, kind, 0, []))
  {
    hide Run, Lex, SortByOffset, Alone, EntitiesOf, TextOf;
    RunAlone(Lex(s, 0), unescape, START, kind);
    var found := Run(Lex(s, 0), unescape, START).value.entities;
    SortPermutes(found);
    NothingYet(kind);
    var mine, alone := EntitiesOf(SortByOffset(found), kind), Alone(Lex(s, 0), unescape, kind, 0, []);
    assert "" + TextOf(Lex(s, 0), unescape) == TextOf(Lex(s, 0), unescape) && [] + alone == alone;
    forall e: Entity
      ensures multiset(mine)[e] == multiset(alone)[e]
    {
      EntitiesOfCount(found, kind, e);
      EntitiesOfCount(SortByOffset(found), kind, e);
    }
  }

  lemma NothingYet(kind: Kind)
    ensures EntitiesOf([], kind) == [] && StartsOf([], kind) == []
  {
  }
}
