/** The laws assumed of the library can be met together: one library that meets them. */
module SessionLaws {
  import opened Common
  import opened SessionCodec

  // ── a text that tells where it ends ────────────────────────────────────────

  /** `n` in unary. */
  function Unary(n: nat): string {
    if n == 0 then "." else "i" + Unary(n - 1)
  }

  lemma {:induction false} UnaryUnique(a: nat, b: nat, s: string, t: string)
    requires Unary(a) + s == Unary(b) + t
    ensures a == b && s == t
  {
    First(Unary(a), s);
    First(Unary(b), t);
    if a == 0 || b == 0 {
      assert Unary(0) == ".";
      assert a == b;
      assert s == (Unary(a) + s)[1..] == (Unary(b) + t)[1..] == t;
    } else {
      assert (Unary(a) + s)[1..] == Unary(a - 1) + s && (Unary(b) + t)[1..] == Unary(b - 1) + t;
      UnaryUnique(a - 1, b - 1, s, t);
    }
  }

  lemma First(a: string, b: string)
    requires a != ""
    ensures (a + b)[0] == a[0] && (a + b)[1..] == a[1..] + b
  {
  }

  /** A text behind its length. */
  function Sized(s: string): string {
    Unary(|s|) + s
  }

  lemma SizedUnique(a: string, b: string, s: string, t: string)
    requires Sized(a) + s == Sized(b) + t
    ensures a == b && s == t
  {
    assert Unary(|a|) + (a + s) == Sized(a) + s && Unary(|b|) + (b + t) == Sized(b) + t;
    UnaryUnique(|a|, |b|, a + s, b + t);
    assert a == (a + s)[..|a|] == (b + t)[..|b|] == b;
    assert s == (a + s)[|a|..] == (b + t)[|b|..] == t;
  }

  // ── JSON values ────────────────────────────────────────────────────────────

  ghost function FirstKey(fields: map<string, Json>): (k: string)
    requires fields != map[]
    ensures k in fields
  {
    var k :| k in fields;
    k
  }

  ghost predicate PartOf(fields: map<string, Json>, whole: Json) {
    whole.Object? && forall k :: k in fields ==> k in whole.fields && fields[k] == whole.fields[k]
  }

  ghost function Print(j: Json): string
    decreases j, if j.Object? then |j.fields| + 2 else 0
  {
    match j
    case Null => "n"
    case Bool(on) => if on then "t" else "f"
    case Int(n) => if n < 0 then "-" + Unary(-n) else "+" + Unary(n)
    case Number(written) => "w" + Sized(written)
    case Text(text) => "s" + Sized(text)
    case List(values) => "[" + PrintAll(values)
    case Object(fields) => "{" + PrintFields(fields, j)
  }

  ghost function PrintAll(values: seq<Json>): string
    decreases values, 0
  {
    if values == [] then "]" else "," + Print(values[0]) + PrintAll(values[1..])
  }

  ghost function PrintFields(fields: map<string, Json>, whole: Json): string
    requires PartOf(fields, whole)
    decreases whole, |fields| + 1
  {
    if fields == map[] then "}"
    else
      var k := FirstKey(fields);
      "," + Sized(k) + Print(whole.fields[k]) + PrintFields(fields - {k}, whole)
  }

  lemma {:induction false} PrintUnique(a: Json, b: Json, s: string, t: string)
    requires Print(a) + s == Print(b) + t
    ensures a == b && s == t
    decreases a, if a.Object? then |a.fields| + 2 else 0
  {
    hide Unary, Sized;
    First(Print(a), s);
    First(Print(b), t);
    match a
    case Null =>
    case Bool(_) =>
    case Int(n) => UnaryUnique(if n < 0 then -n else n, if b.n < 0 then -b.n else b.n, s, t);
    case Number(w) => SizedUnique(w, b.written, s, t);
    case Text(w) => SizedUnique(w, b.text, s, t);
    case List(values) => AllUnique(values, b.values, s, t);
    case Object(fields) => FieldsUnique(fields, b.fields, a, b, s, t);
  }

  lemma Regroup(a: string, b: string, c: string, s: string)
    ensures ("," + a + b + c + s)[1..] == a + (b + (c + s))
  {
  }

  lemma {:induction false} AllUnique(a: seq<Json>, b: seq<Json>, s: string, t: string)
    requires PrintAll(a) + s == PrintAll(b) + t
    ensures a == b && s == t
    decreases a, 0
  {
    First(PrintAll(a), s);
    First(PrintAll(b), t);
    if a != [] && b != [] {
      var p, q := PrintAll(a[1..]), PrintAll(b[1..]);
      Regroup(Print(a[0]), p, "", s);
      Regroup(Print(b[0]), q, "", t);
      assert "," + Print(a[0]) + p + "" == PrintAll(a) && "," + Print(b[0]) + q + "" == PrintAll(b);
      assert "" + s == s && "" + t == t;
      PrintUnique(a[0], b[0], p + s, q + t);
      AllUnique(a[1..], b[1..], s, t);
      assert a == [a[0]] + a[1..] && b == [b[0]] + b[1..];
    }
  }

  lemma {:induction false} FieldsUnique(a: map<string, Json>, b: map<string, Json>, wholeA: Json, wholeB: Json, s: string, t: string)
    requires PartOf(a, wholeA) && PartOf(b, wholeB) && PrintFields(a, wholeA) + s == PrintFields(b, wholeB) + t
    ensures a == b && s == t
    decreases wholeA, |a| + 1
  {
    hide Sized;
    First(PrintFields(a, wholeA), s);
    First(PrintFields(b, wholeB), t);
    if a != map[] && b != map[] {
      var j, k := FirstKey(a), FirstKey(b);
      var p, q := PrintFields(a - {j}, wholeA), PrintFields(b - {k}, wholeB);
      Regroup(Sized(j), Print(a[j]), p, s);
      Regroup(Sized(k), Print(b[k]), q, t);
      SizedUnique(j, k, Print(a[j]) + (p + s), Print(b[k]) + (q + t));
      PrintUnique(a[j], b[k], p + s, q + t);
      FieldsUnique(a - {j}, b - {k}, wholeA, wholeB, s, t);
      assert a == (a - {j})[j := a[j]] && b == (b - {k})[k := b[k]];
    }
  }

  // ── characters as bytes ────────────────────────────────────────────────────

  function CharBytes(c: char): seq<byte> {
    [c as int / 256 / 256, c as int / 256 % 256, c as int % 256]
  }

  lemma Digits(n: nat)
    ensures n == n / 256 * 256 + n % 256
  {
  }

  lemma CharBytesUnique(c: char, d: char)
    requires CharBytes(c) == CharBytes(d)
    ensures c == d
  {
    assert CharBytes(c)[0] == CharBytes(d)[0] && CharBytes(c)[1] == CharBytes(d)[1] && CharBytes(c)[2] == CharBytes(d)[2];
    Digits(c as int);
    Digits(d as int);
    Digits(c as int / 256);
    Digits(d as int / 256);
    assert c as int == d as int;
  }

  function TextBytes(t: string): seq<byte> {
    if t == "" then [] else CharBytes(t[0]) + TextBytes(t[1..])
  }

  lemma {:induction false} TextBytesUnique(s: string, t: string)
    requires TextBytes(s) == TextBytes(t)
    ensures s == t
    decreases |s|
  {
    if s != "" && t != "" {
      var a, b := CharBytes(s[0]), CharBytes(t[0]);
      assert a == (a + TextBytes(s[1..]))[..3] == (b + TextBytes(t[1..]))[..3] == b;
      assert TextBytes(s[1..]) == (a + TextBytes(s[1..]))[3..] == (b + TextBytes(t[1..]))[3..] == TextBytes(t[1..]);
      CharBytesUnique(s[0], t[0]);
      TextBytesUnique(s[1..], t[1..]);
      assert s == [s[0]] + s[1..] && t == [t[0]] + t[1..];
    }
  }

  // ── the library ────────────────────────────────────────────────────────────

  ghost function Loaded(t: string): Option<Json> {
    if exists j :: Print(j) == t then
      var j :| Print(j) == t;
      Some(j)
    else None
  }

  ghost function Decoded(b: seq<byte>): Option<string> {
    if exists t :: TextBytes(t) == b then
      var t :| TextBytes(t) == b;
      Some(t)
    else None
  }

  ghost function SimpleLibrary(): Library {
    Library(j => Print(j), j => Print(j), t => Loaded(t), t => TextBytes(t), b => Decoded(b),
            (b: seq<byte>) => [0 as byte] + b, (b: seq<byte>) => if b == [] then None else Some(b[1..]), _ => [0, 0, 0, 0],
            (j: Json) => if j.Int? then Some(j.n) else None, (j: Json) => if j.Text? then j.text else "")
  }

  /** It meets every law that the session round trips assume. */
  lemma LawsCanBeMet()
    ensures Lawful(SimpleLibrary())
  {
    var lib := SimpleLibrary();
    forall j
      ensures JsonBack(lib, j)
    {
      LoadsBack(j);
    }
    forall t
      ensures TextBack(lib, t)
    {
      DecodesBack(t);
    }
    forall b
      ensures BytesBack(lib, b)
    {
      assert ([0 as byte] + b)[1..] == b;
    }
  }

  lemma LoadsBack(j: Json)
    ensures Loaded(Print(j)) == Some(j)
  {
    var k :| Loaded(Print(j)) == Some(k) && Print(k) == Print(j);
    assert Print(k) + "" == Print(j) + "";
    PrintUnique(k, j, "", "");
  }

  lemma DecodesBack(t: string)
    ensures Decoded(TextBytes(t)) == Some(t)
  {
    var u :| Decoded(TextBytes(t)) == Some(u) && TextBytes(u) == TextBytes(t);
    TextBytesUnique(u, t);
  }
}
