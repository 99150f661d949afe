/** Text entities and the stable sort by offset that both parsers end with. */
module Entities {
  datatype Kind = Bold | Italic | Mono

  datatype Entity = Entity(kind: Kind, offset: int, length: nat)

  ghost predicate Sorted(s: seq<Entity>) {
    forall i, j :: 0 <= i < j < |s| ==> s[i].offset <= s[j].offset
  }

  ghost predicate StrictlySorted(s: seq<Entity>) {
    forall i, j :: 0 <= i < j < |s| ==> s[i].offset < s[j].offset
  }

  /** Puts `e` behind everything that starts no later. */
  function Insert(s: seq<Entity>, e: Entity): seq<Entity> {
    if s == [] || s[|s| - 1].offset <= e.offset then s + [e]
    else Insert(s[..|s| - 1], e) + [s[|s| - 1]]
  }

  function SortByOffset(s: seq<Entity>): seq<Entity> {
    if s == [] then [] else Insert(SortByOffset(s[..|s| - 1]), s[|s| - 1])
  }

  /** The entities at one offset, in order. */
  function AtOffset(s: seq<Entity>, offset: int): seq<Entity> {
    if s == [] then []
    else AtOffset(s[..|s| - 1], offset) + if s[|s| - 1].offset == offset then [s[|s| - 1]] else []
  }

  lemma {:induction false} InsertPermutes(s: seq<Entity>, e: Entity)
    ensures multiset(Insert(s, e)) == multiset(s) + multiset{e}
  {
    if s != [] && s[|s| - 1].offset > e.offset {
      var n := |s| - 1;
      InsertPermutes(s[..n], e);
      assert s == s[..n] + [s[n]];
    }
  }

  lemma {:induction false} InsertMembers(s: seq<Entity>, e: Entity, x: Entity)
    ensures x in Insert(s, e) <==> x == e || x in s
  {
    if s != [] && s[|s| - 1].offset > e.offset {
      var n := |s| - 1;
      InsertMembers(s[..n], e, x);
      assert s == s[..n] + [s[n]];
    }
  }

  lemma {:induction false} InsertSorted(s: seq<Entity>, e: Entity)
    requires Sorted(s)
    ensures Sorted(Insert(s, e))
  {
    if s != [] && s[|s| - 1].offset > e.offset {
      var n := |s| - 1;
      InsertSorted(s[..n], e);
      var front := Insert(s[..n], e);
      forall i | 0 <= i < |front|
        ensures front[i].offset <= s[n].offset
      {
        InsertMembers(s[..n], e, front[i]);
      }
      AppendSorted(front, s[n]);
    }
  }

  lemma AppendSorted(s: seq<Entity>, e: Entity)
    requires Sorted(s) && forall i :: 0 <= i < |s| ==> s[i].offset <= e.offset
    ensures Sorted(s + [e])
  {
  }

  lemma AtOffsetSnoc(s: seq<Entity>, e: Entity, offset: int)
    ensures AtOffset(s + [e], offset) == AtOffset(s, offset) + if e.offset == offset then [e] else []
  {
    assert (s + [e])[..|s|] == s;
  }

  lemma {:induction false} InsertStable(s: seq<Entity>, e: Entity, offset: int)
    requires Sorted(s)
    ensures AtOffset(Insert(s, e), offset) == AtOffset(s, offset) + if e.offset == offset then [e] else []
  {
    if s == [] || s[|s| - 1].offset <= e.offset {
      AtOffsetSnoc(s, e, offset);
    } else {
      var n := |s| - 1;
      InsertStable(s[..n], e, offset);
      AtOffsetSnoc(Insert(s[..n], e), s[n], offset);
    }
  }

  lemma {:induction false} SortIsSorted(s: seq<Entity>)
    ensures Sorted(SortByOffset(s))
  {
    if s != [] {
      SortIsSorted(s[..|s| - 1]);
      InsertSorted(SortByOffset(s[..|s| - 1]), s[|s| - 1]);
    }
  }

  lemma SnocMultiset(s: seq<Entity>, front: seq<Entity>, last: Entity)
    requires s == front + [last]
    ensures multiset(s) == multiset(front) + multiset{last}
  {
  }

  lemma {:induction false} SortPermutes(s: seq<Entity>)
    ensures multiset(SortByOffset(s)) == multiset(s)
  {
    if s != [] {
      var front, last := s[..|s| - 1], s[|s| - 1];
      SortPermutes(front);
      InsertPermutes(SortByOffset(front), last);
      SnocMultiset(s, front, last);
    }
  }

  /** Entities that start together keep their order. */
  lemma {:induction false} SortIsStable(s: seq<Entity>, offset: int)
    ensures AtOffset(SortByOffset(s), offset) == AtOffset(s, offset)
  {
    if s != [] {
      SortIsStable(s[..|s| - 1], offset);
      SortIsSorted(s[..|s| - 1]);
      InsertStable(SortByOffset(s[..|s| - 1]), s[|s| - 1], offset);
    }
  }

  lemma SameHead(a: seq<Entity>, b: seq<Entity>)
    requires Sorted(a) && StrictlySorted(b) && a != [] && b != []
    requires a[0] in b && b[0] in a
    ensures a[0] == b[0]
  {
    var i :| 0 <= i < |b| && b[i] == a[0];
    var j :| 0 <= j < |a| && a[j] == b[0];
    assert a[0].offset <= a[j].offset;
  }

  lemma TailMultiset(a: seq<Entity>)
    requires a != []
    ensures multiset(a[1..]) == multiset(a) - multiset{a[0]}
  {
    assert a == [a[0]] + a[1..];
  }

  lemma {:induction false} SortedUnique(a: seq<Entity>, b: seq<Entity>)
    requires Sorted(a) && StrictlySorted(b) && multiset(a) == multiset(b)
    ensures a == b
  {
    assert |multiset(a)| == |a| && |multiset(b)| == |b|;
    if a != [] {
      assert a[0] in multiset(a) && b[0] in multiset(b);
      SameHead(a, b);
      TailMultiset(a);
      TailMultiset(b);
      SortedUnique(a[1..], b[1..]);
    }
  }

  /** Entities at different offsets come out in offset order, however they were found. */
  lemma SortRecovers(found: seq<Entity>, expected: seq<Entity>)
    requires StrictlySorted(expected) && multiset(found) == multiset(expected)
    ensures SortByOffset(found) == expected
  {
    SortIsSorted(found);
    SortPermutes(found);
    SortedUnique(SortByOffset(found), expected);
  }
}
