/** URL-safe Base64 (section 5 of RFC 4648) with the padding stripped and put back, and the lenient decoder. */
module Base64 {
  import opened Common

  type byte = b: int | 0 <= b < 256

  // ── the alphabet ───────────────────────────────────────────────────────────

  function CharOf(v: nat): char
    requires v < 64
  {
    if v < 26 then ('A' as int + v) as char
    else if v < 52 then ('a' as int + (v - 26)) as char
    else if v < 62 then ('0' as int + (v - 52)) as char
    else if v == 62 then '-'
    else '_'
  }

  /** Both alphabets are accepted. */
  function ValueOf(c: char): (r: Option<nat>)
    ensures r.Some? ==> r.value < 64
  {
    if 'A' <= c <= 'Z' then Some(c as int - 'A' as int)
    else if 'a' <= c <= 'z' then Some(c as int - 'a' as int + 26)
    else if '0' <= c <= '9' then Some(c as int - '0' as int + 52)
    else if c == '-' || c == '+' then Some(62)
    else if c == '_' || c == '/' then Some(63)
    else None
  }

  lemma ValueOfChar(v: nat)
    requires v < 64
    ensures ValueOf(CharOf(v)) == Some(v) && CharOf(v) != '=' && CharOf(v) as int < 128
  {
  }

  // ── encoding ───────────────────────────────────────────────────────────────

  function Quad(a: byte, b: byte, c: byte): (r: string)
    ensures |r| == 4
  {
    [CharOf(a / 4), CharOf(a % 4 * 16 + b / 16), CharOf(b % 16 * 4 + c / 64), CharOf(c % 64)]
  }

  function Padded(raw: seq<byte>): string {
    if |raw| == 0 then ""
    else if |raw| == 1 then Quad(raw[0], 0, 0)[..2] + "=="
    else if |raw| == 2 then Quad(raw[0], raw[1], 0)[..3] + "="
    else Quad(raw[0], raw[1], raw[2]) + Padded(raw[3..])
  }

  /** `rstrip("=")`. */
  function StripPads(s: string): string {
    if s != "" && s[|s| - 1] == '=' then StripPads(s[..|s| - 1]) else s
  }

  function Encode(raw: seq<byte>): string {
    StripPads(Padded(raw))
  }

  // ── decoding ───────────────────────────────────────────────────────────────

  /** The decoder between two characters: place in the quad, bits left over, pads seen, bytes out. */
  datatype State = State(quad: nat, left: nat, pads: nat, out: seq<byte>)

  ghost predicate Ready(st: State) {
    st.quad < 4 && st.left < (if st.quad == 0 then 1 else if st.quad == 1 then 64 else if st.quad == 2 then 16 else 4)
  }

  datatype Failure = NotBase64

  /** One character of the alphabet. */
  function Take(st: State, v: nat): (r: State)
    requires Ready(st) && v < 64
    ensures Ready(r)
  {
    match st.quad
    case 0 => State(1, v, 0, st.out)
    case 1 => State(2, v % 16, 0, st.out + [st.left * 4 + v / 16])
    case 2 => State(3, v % 4, 0, st.out + [st.left * 16 + v / 4])
    case _ => State(0, 0, 0, st.out + [st.left * 64 + v])
  }

  /** Characters outside the alphabet are skipped; enough pads after two characters of a quad end the input. */
  function Scan(s: string, i: nat, st: State): Result<seq<byte>, Failure>
    requires i <= |s| && Ready(st)
    decreases |s| - i
  {
    if i == |s| then
      if st.quad != 0 then Err(NotBase64) else Ok(st.out)
    else if s[i] == '=' then
      if st.quad >= 2 then
        if st.quad + st.pads + 1 >= 4 then Ok(st.out)
        else Scan(s, i + 1, st.(pads := st.pads + 1))
      else Scan(s, i + 1, st)
    else
      var v := ValueOf(s[i]);
      if v.None? then Scan(s, i + 1, st) else Scan(s, i + 1, Take(st, v.value))
  }

  const START := State(0, 0, 0, [])

  function Pads(n: nat): string {
    if n % 4 == 0 then "" else if n % 4 == 1 then "===" else if n % 4 == 2 then "==" else "="
  }

  predicate Ascii(s: string) {
    forall i :: 0 <= i < |s| ==> s[i] as int < 128
  }

  function Decode(s: string): Result<seq<byte>, Failure> {
    if Ascii(s) then Scan(s + Pads(|s|), 0, START) else Err(NotBase64)
  }

  /** The decoder's loop. */
  method A2b(s: string) returns (r: Result<seq<byte>, Failure>)
    ensures r == Scan(s, 0, START)
  {
    var quad: nat, left: nat, pads: nat, out: seq<byte> := 0, 0, 0, [];
    for i := 0 to |s|
      invariant Ready(State(quad, left, pads, out))
      invariant Scan(s, i, State(quad, left, pads, out)) == Scan(s, 0, START)
    {
      if s[i] == '=' {
        if quad >= 2 {
          pads := pads + 1;
          if quad + pads >= 4 {
            return Ok(out);
          }
        }
        continue;
      }
      var v := ValueOf(s[i]);
      if v.None? {
        continue;
      }
      pads := 0;
      if quad == 0 {
        quad, left := 1, v.value;
      } else if quad == 1 {
        quad, left, out := 2, v.value % 16, out + [left * 4 + v.value / 16];
      } else if quad == 2 {
        quad, left, out := 3, v.value % 4, out + [left * 16 + v.value / 4];
      } else {
        quad, left, out := 0, 0, out + [left * 64 + v.value];
      }
    }
    if quad != 0 {
      return Err(NotBase64);
    }
    return Ok(out);
  }

  // ── the round trip ─────────────────────────────────────────────────────────

  /** The characters of the alphabet, without pads. */
  ghost predicate Plain(s: string) {
    forall i :: 0 <= i < |s| ==> ValueOf(s[i]).Some? && s[i] != '=' && s[i] as int < 128
  }

  /** The text without pads, straight from the bytes. */
  function Bare(raw: seq<byte>): string {
    if |raw| == 0 then ""
    else if |raw| == 1 then Quad(raw[0], 0, 0)[..2]
    else if |raw| == 2 then Quad(raw[0], raw[1], 0)[..3]
    else Quad(raw[0], raw[1], raw[2]) + Bare(raw[3..])
  }

  lemma QuadIsPlain(a: byte, b: byte, c: byte)
    ensures Plain(Quad(a, b, c))
  {
    ValueOfChar(a / 4);
    ValueOfChar(a % 4 * 16 + b / 16);
    ValueOfChar(b % 16 * 4 + c / 64);
    ValueOfChar(c % 64);
  }

  /** The stripped text uses only letters, digits, `-` and `_`. */
  lemma {:induction false} BareIsPlain(raw: seq<byte>)
    ensures Plain(Bare(raw))
  {
    hide Quad;
    if raw != [] {
      QuadIsPlain(raw[0], if |raw| > 1 then raw[1] else 0, if |raw| > 2 then raw[2] else 0);
      if |raw| >= 3 {
        BareIsPlain(raw[3..]);
      }
    }
  }

  /** The length tells how many pads were stripped. */
  lemma {:induction false} PaddedIs(raw: seq<byte>)
    ensures Padded(raw) == Bare(raw) + Pads(|Bare(raw)|)
    ensures |Bare(raw)| == (4 * |raw| + 2) / 3
  {
    hide Quad;
    if |raw| >= 3 {
      PaddedIs(raw[3..]);
      var front, rest := Quad(raw[0], raw[1], raw[2]), Bare(raw[3..]);
      assert front + (rest + Pads(|rest|)) == (front + rest) + Pads(|rest|);
    }
  }

  lemma {:induction false} StripsAll(s: string, n: nat)
    requires Plain(s) && n <= 3
    ensures StripPads(s + "==="[..n]) == s
  {
    var whole := s + "==="[..n];
    if n == 0 {
      assert whole == s;
    } else {
      assert whole[|whole| - 1] == '=' && whole[..|whole| - 1] == s + "==="[..n - 1];
      StripsAll(s, n - 1);
    }
  }

  lemma EncodeIsBare(raw: seq<byte>)
    ensures Encode(raw) == Bare(raw)
  {
    hide Padded, Bare, StripPads;
    PaddedIs(raw);
    BareIsPlain(raw);
    var n := |Pads(|Bare(raw)|)|;
    assert Pads(|Bare(raw)|) == "==="[..n];
    StripsAll(Bare(raw), n);
  }

  lemma Takes(s: string, i: nat, st: State, v: nat)
    requires Ready(st) && v < 64 && i < |s| && s[i] == CharOf(v)
    ensures Scan(s, i, st) == Scan(s, i + 1, Take(st, v))
  {
    hide Take, CharOf, ValueOf;
    ValueOfChar(v);
  }

  /** What the four characters of three bytes leave behind, one by one. */
  lemma Bits(a: byte, b: byte, c: byte, out: seq<byte>)
    ensures var second := Take(Take(State(0, 0, 0, out), a / 4), a % 4 * 16 + b / 16);
      && second == State(2, b / 16, 0, out + [a])
      && Take(second, b % 16 * 4 + c / 64) == State(3, c / 64, 0, out + [a] + [b])
      && Take(Take(second, b % 16 * 4 + c / 64), c % 64) == State(0, 0, 0, out + [a] + [b] + [c])
  {
    assert (a % 4 * 16 + b / 16) / 16 == a % 4 && (a % 4 * 16 + b / 16) % 16 == b / 16;
    assert (b % 16 * 4 + c / 64) / 4 == b % 16 && (b % 16 * 4 + c / 64) % 4 == c / 64;
  }

  lemma TakesTwo(s: string, i: nat, a: byte, b: byte, out: seq<byte>)
    requires i + 2 <= |s| && s[i] == Quad(a, b, 0)[0] && s[i + 1] == Quad(a, b, 0)[1]
    ensures Scan(s, i, State(0, 0, 0, out)) == Scan(s, i + 2, State(2, b / 16, 0, out + [a]))
  {
    hide Scan, Take, CharOf;
    Takes(s, i, State(0, 0, 0, out), a / 4);
    Takes(s, i + 1, Take(State(0, 0, 0, out), a / 4), a % 4 * 16 + b / 16);
    Bits(a, b, 0, out);
  }

  lemma TakesThree(s: string, i: nat, a: byte, b: byte, c: byte, out: seq<byte>)
    requires i + 3 <= |s| && s[i..i + 3] == Quad(a, b, c)[..3]
    ensures Scan(s, i, State(0, 0, 0, out)) == Scan(s, i + 3, State(3, c / 64, 0, out + [a] + [b]))
  {
    hide Scan, Take, CharOf;
    assert s[i] == s[i..i + 3][0] && s[i + 1] == s[i..i + 3][1] && s[i + 2] == s[i..i + 3][2];
    TakesTwo(s, i, a, b, out);
    Takes(s, i + 2, State(2, b / 16, 0, out + [a]), b % 16 * 4 + c / 64);
    Bits(a, b, c, out);
  }

  lemma TakesFour(s: string, i: nat, a: byte, b: byte, c: byte, out: seq<byte>)
    requires i + 4 <= |s| && s[i..i + 4] == Quad(a, b, c)
    ensures Scan(s, i, State(0, 0, 0, out)) == Scan(s, i + 4, State(0, 0, 0, out + [a] + [b] + [c]))
  {
    hide Scan, Take, CharOf;
    assert s[i..i + 3] == s[i..i + 4][..3] && s[i + 3] == s[i..i + 4][3];
    TakesThree(s, i, a, b, c, out);
    Takes(s, i + 3, State(3, c / 64, 0, out + [a] + [b]), c % 64);
    Bits(a, b, c, out);
  }

  lemma Ends(s: string, i: nat, st: State)
    requires Ready(st) && i <= |s|
    ensures i == |s| && st.quad == 0 ==> Scan(s, i, st) == Ok(st.out)
    ensures st.quad == 3 && i < |s| && s[i] == '=' ==> Scan(s, i, st) == Ok(st.out)
    ensures st.quad == 2 && st.pads == 0 && i + 1 < |s| && s[i] == '=' && s[i + 1] == '=' ==> Scan(s, i, st) == Ok(st.out)
  {
  }

  /** Reading the text of any bytes with its pads restored appends exactly those bytes. */
  lemma {:induction false} ReadsBare(s: string, i: nat, raw: seq<byte>, out: seq<byte>)
    requires i <= |s| && s[i..] == Padded(raw)
    ensures Scan(s, i, State(0, 0, 0, out)) == Ok(out + raw)
    decreases |raw|
  {
    hide Scan, Quad;
    var rest := s[i..];
    if |raw| == 0 {
      Ends(s, i, State(0, 0, 0, out));
      assert out + raw == out;
    } else if |raw| == 1 {
      var q := Quad(raw[0], 0, 0);
      assert s[i] == rest[0] == q[0] && s[i + 1] == rest[1] == q[1] && s[i + 2] == rest[2] && s[i + 3] == rest[3];
      TakesTwo(s, i, raw[0], 0, out);
      Ends(s, i + 2, State(2, 0, 0, out + [raw[0]]));
      assert out + raw == out + [raw[0]];
    } else if |raw| == 2 {
      var q := Quad(raw[0], raw[1], 0);
      assert s[i..i + 3] == rest[..3] == q[..3] && s[i + 3] == rest[3];
      TakesThree(s, i, raw[0], raw[1], 0, out);
      Ends(s, i + 3, State(3, 0, 0, out + [raw[0]] + [raw[1]]));
      assert out + raw == out + [raw[0]] + [raw[1]];
    } else {
      assert s[i..i + 4] == rest[..4] == Quad(raw[0], raw[1], raw[2]);
      TakesFour(s, i, raw[0], raw[1], raw[2], out);
      assert s[i + 4..] == rest[4..];
      ReadsBare(s, i + 4, raw[3..], out + [raw[0]] + [raw[1]] + [raw[2]]);
      assert out + [raw[0]] + [raw[1]] + [raw[2]] + raw[3..] == out + raw;
    }
  }

  /** Decoding undoes encoding, for all bytes. */
  lemma RoundTrip(raw: seq<byte>)
    ensures Decode(Encode(raw)) == Ok(raw)
  {
    hide Scan, Padded, Bare, Encode;
    EncodeIsBare(raw);
    BareIsPlain(raw);
    PaddedIs(raw);
    var s := Bare(raw) + Pads(|Bare(raw)|);
    assert s[0..] == s;
    ReadsBare(s, 0, raw, []);
    assert [] + raw == raw;
  }

  // ── what the decoder refuses ───────────────────────────────────────────────

  /** Characters of the alphabet among the first `n`. */
  function Letters(s: string, n: nat): nat
    requires n <= |s|
  {
    if n == 0 then 0 else Letters(s, n - 1) + if s[n - 1] != '=' && ValueOf(s[n - 1]).Some? then 1 else 0
  }

  /** A pad at `q` since the last character of the alphabet before `n`. */
  ghost predicate PadSince(s: string, n: nat)
    requires n <= |s|
  {
    exists q: nat :: q < n && s[q] == '=' && Letters(s, q) == Letters(s, n)
  }

  /** The pad at `p` completes a quad: the first after three characters of it, or the second after two. */
  ghost predicate Completes(s: string, p: nat)
    requires p < |s|
  {
    s[p] == '=' && (Letters(s, p) % 4 == 3 || (Letters(s, p) % 4 == 2 && PadSince(s, p)))
  }

  ghost predicate NoneCompletes(s: string, from: nat) {
    forall p: nat :: from <= p < |s| ==> !Completes(s, p)
  }

  /** Where the decoder stands, in terms of what it has read. */
  ghost predicate Stands(s: string, i: nat, st: State)
    requires i <= |s|
  {
    && Ready(st) && st.quad == Letters(s, i) % 4
    && (st.quad >= 2 ==> (st.pads > 0 <==> PadSince(s, i)))
    && (st.quad == 2 ==> st.pads <= 1) && (st.quad == 3 ==> st.pads == 0)
  }

  lemma PadMoves(s: string, i: nat, st: State)
    requires i < |s| && Stands(s, i, st) && s[i] == '=' && !Completes(s, i)
    ensures Scan(s, i, st) == Scan(s, i + 1, if st.quad >= 2 then st.(pads := st.pads + 1) else st)
    ensures Stands(s, i + 1, if st.quad >= 2 then st.(pads := st.pads + 1) else st)
  {
    assert Letters(s, i + 1) == Letters(s, i);
    assert PadSince(s, i + 1);
  }

  lemma PadEnds(s: string, i: nat, st: State)
    requires i < |s| && Stands(s, i, st) && Completes(s, i)
    ensures Scan(s, i, st).Ok?
  {
  }

  lemma SkipMoves(s: string, i: nat, st: State)
    requires i < |s| && Stands(s, i, st) && s[i] != '=' && ValueOf(s[i]).None?
    ensures Scan(s, i, st) == Scan(s, i + 1, st) && Stands(s, i + 1, st)
  {
    assert Letters(s, i + 1) == Letters(s, i);
    if PadSince(s, i) {
      var q: nat :| q < i && s[q] == '=' && Letters(s, q) == Letters(s, i);
      assert PadSince(s, i + 1);
    }
  }

  lemma {:induction false} LettersGrow(s: string, i: nat, j: nat)
    requires i <= j <= |s|
    ensures Letters(s, i) <= Letters(s, j)
    decreases j
  {
    if i < j {
      LettersGrow(s, i, j - 1);
    }
  }

  lemma LetterMoves(s: string, i: nat, st: State)
    requires i < |s| && Stands(s, i, st) && s[i] != '=' && ValueOf(s[i]).Some?
    ensures var next := Take(st, ValueOf(s[i]).value);
      Scan(s, i, st) == Scan(s, i + 1, next) && Stands(s, i + 1, next)
  {
    assert Letters(s, i + 1) == Letters(s, i) + 1;
    forall q: nat | q < i + 1
      ensures Letters(s, q) != Letters(s, i + 1)
    {
      LettersGrow(s, q, i);
    }
  }

  lemma {:induction false} ScanDecides(s: string, i: nat, st: State)
    requires i <= |s| && Stands(s, i, st)
    ensures Scan(s, i, st).Err? <==> Letters(s, |s|) % 4 != 0 && NoneCompletes(s, i)
    decreases |s| - i
  {
    hide Take, ValueOf, Completes, PadSince;
    if i == |s| {
      AtEnd(s, st);
    } else if s[i] == '=' {
      if Completes(s, i) {
        PadEnds(s, i, st);
      } else {
        PadMoves(s, i, st);
        ScanDecides(s, i + 1, if st.quad >= 2 then st.(pads := st.pads + 1) else st);
      }
    } else {
      NoPadHere(s, i);
      if ValueOf(s[i]).None? {
        SkipMoves(s, i, st);
        ScanDecides(s, i + 1, st);
      } else {
        LetterMoves(s, i, st);
        ScanDecides(s, i + 1, Take(st, ValueOf(s[i]).value));
      }
    }
  }

  lemma AtEnd(s: string, st: State)
    requires Stands(s, |s|, st)
    ensures Scan(s, |s|, st).Err? <==> Letters(s, |s|) % 4 != 0
  {
  }

  lemma NoPadHere(s: string, i: nat)
    requires i < |s| && s[i] != '='
    ensures !Completes(s, i)
  {
  }

  /** Any text is refused exactly when it is not ASCII, or, with the pads that its length asks for, its characters
      of the alphabet do not make whole quads and no pad completes the last one. */
  lemma RefusedExactlyWhen(s: string)
    ensures var padded := s + Pads(|s|);
      Decode(s).Err? <==> !Ascii(s) || (Letters(padded, |padded|) % 4 != 0 && NoneCompletes(padded, 0))
  {
    ScanDecides(s + Pads(|s|), 0, START);
  }

  lemma {:induction false} PlainLetters(s: string, n: nat, i: nat)
    requires i <= n <= |s| && Plain(s[..n])
    ensures Letters(s, i) == i
  {
    hide ValueOf;
    if i > 0 {
      PlainLetters(s, n, i - 1);
      assert s[i - 1] == s[..n][i - 1];
    }
  }

  lemma {:induction false} PadsAreNoLetters(s: string, n: nat, i: nat)
    requires n <= i <= |s| && Plain(s[..n]) && forall k :: n <= k < |s| ==> s[k] == '='
    ensures Letters(s, i) == n
    decreases i
  {
    if i == n {
      PlainLetters(s, n, n);
    } else {
      PadsAreNoLetters(s, n, i - 1);
    }
  }

  /** So a text of the alphabet alone is refused exactly when it is one character longer than whole quads. */
  lemma PlainRefusedExactlyWhen(s: string)
    requires Plain(s)
    ensures Decode(s).Err? <==> |s| % 4 == 1
  {
    hide Scan, Decode, ValueOf;
    var n, padded := |s|, s + Pads(|s|);
    assert padded[..n] == s;
    assert Ascii(s);
    PadsAreNoLetters(padded, n, |padded|);
    RefusedExactlyWhen(s);
    if n % 4 == 2 || n % 4 == 3 {
      var last := |padded| - 1;
      PadsAreNoLetters(padded, n, last);
      PadsAreNoLetters(padded, n, n);
      assert Completes(padded, last);
    } else {
      forall p: nat | p < |padded|
        ensures !Completes(padded, p)
      {
        if p >= n {
          PadsAreNoLetters(padded, n, p);
        } else {
          assert padded[p] == s[p];
        }
      }
    }
  }

  // ── the alphabet itself, and what is skipped ───────────────────────────────

  /** Vectors of section 10 of RFC 4648, unpadded, and one with both characters of the URL-safe alphabet. */
  lemma KnownTexts(fo: seq<byte>, foo: seq<byte>, odd: seq<byte>)
    requires fo == [102, 111] && foo == [102, 111, 111] && odd == [251, 255, 191]
    ensures Encode(fo) == "Zm8" && Encode(foo) == "Zm9v" && Encode(odd) == "-_-_"
  {
    assert Padded(foo[3..]) == "" && Padded(odd[3..]) == "";
    assert Padded(fo) == "Zm8=" && Padded(foo) == "Zm9v" && Padded(odd) == "-_-_";
    assert StripPads("Zm8=") == StripPads("Zm8=")[..3] == "Zm8";
  }

  /** Either of two characters stands for each of the last two values; nothing else beside letters and digits counts. */
  lemma AlphabetTable(c: char)
    ensures ValueOf('-') == ValueOf('+') == Some(62) && ValueOf('_') == ValueOf('/') == Some(63)
    ensures ValueOf(c).Some? <==> 'A' <= c <= 'Z' || 'a' <= c <= 'z' || '0' <= c <= '9' || c in "-+_/"
  {
  }

  /** The text from `i` on without the characters that the decoder does not know. */
  function Kept(s: string, i: nat): string
    requires i <= |s|
    decreases |s| - i
  {
    if i == |s| then ""
    else if s[i] == '=' || ValueOf(s[i]).Some? then [s[i]] + Kept(s, i + 1)
    else Kept(s, i + 1)
  }

  lemma {:induction false} ScanBehind(front: string, s: string, i: nat, st: State)
    requires i <= |s| && Ready(st)
    ensures Scan(front + s, |front| + i, st) == Scan(s, i, st)
    decreases |s| - i
  {
    hide ValueOf, Take;
    if i < |s| {
      assert (front + s)[|front| + i] == s[i];
      var v := ValueOf(s[i]);
      if s[i] == '=' {
        ScanBehind(front, s, i + 1, st.(pads := st.pads + 1));
        ScanBehind(front, s, i + 1, st);
      } else if v.None? {
        ScanBehind(front, s, i + 1, st);
      } else {
        ScanBehind(front, s, i + 1, Take(st, v.value));
      }
    }
  }

  /** Such characters are skipped, wherever they stand: white space or line breaks in a text change nothing. */
  lemma {:induction false} OthersAreSkipped(s: string, i: nat, st: State)
    requires i <= |s| && Ready(st)
    ensures Scan(s, i, st) == Scan(Kept(s, i), 0, st)
    decreases |s| - i
  {
    hide ValueOf, Take;
    if i < |s| {
      var c, rest := s[i], Kept(s, i + 1);
      var v := ValueOf(c);
      if c == '=' || v.Some? {
        var next := if c != '=' then Take(st, v.value) else if st.quad >= 2 then st.(pads := st.pads + 1) else st;
        OthersAreSkipped(s, i + 1, next);
        ScanBehind([c], rest, 0, next);
      } else {
        OthersAreSkipped(s, i + 1, st);
      }
    }
  }
}
