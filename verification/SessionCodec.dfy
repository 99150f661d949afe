/** Session strings: JSON, compressed and checksummed, as URL-safe Base64. */
module SessionCodec {
  import opened Common
  import Base64

  type byte = Base64.byte

  /** A JSON value; `Number` stands for the non-integer ones. */
  datatype Json =
    | Null
    | Bool(on: bool)
    | Int(n: int)
    | Number(written: string)
    | Text(text: string)
    | List(values: seq<Json>)
    | Object(fields: map<string, Json>)

  /** The library calls, as functions. */
  datatype Library = Library(
    compact: Json -> string,                              // json.dumps with sorted keys and no spaces
    spaced: Json -> string,                               // json.dumps
    loads: string -> Option<Json>,                        // None: ValueError
    encode: string -> seq<byte>,                          // UTF-8
    decode: seq<byte> -> Option<string>,                  // None: UnicodeDecodeError
    compress: seq<byte> -> seq<byte>,
    decompress: seq<byte> -> Option<seq<byte>>,           // None: zlib.error
    crc: seq<byte> -> seq<byte>,                          // CRC-32, four bytes, big end first
    toInt: Json -> Option<int>,                           // None: int() raises
    toStr: Json -> string                                 // str()
  )

  /** What is assumed of the library: each pair is inverse, and numbers and texts convert to themselves. */
  ghost predicate Lawful(lib: Library) {
    && (forall j :: JsonBack(lib, j)) && (forall t :: TextBack(lib, t)) && (forall b :: BytesBack(lib, b))
    && (forall n :: lib.toInt(Int(n)) == Some(n)) && (forall t :: lib.toStr(Text(t)) == t)
  }

  ghost predicate JsonBack(lib: Library, j: Json) {
    lib.loads(lib.compact(j)) == Some(j) && lib.loads(lib.spaced(j)) == Some(j)
  }

  ghost predicate TextBack(lib: Library, t: string) {
    lib.decode(lib.encode(t)) == Some(t)
  }

  ghost predicate BytesBack(lib: Library, b: seq<byte>) {
    lib.decompress(lib.compress(b)) == Some(b) && lib.compress(b) != [] && |lib.crc(b)| == 4
  }

  const PREFIX := "rbg2."

  datatype Failure = Empty | BadBase64 | Truncated | Corrupt | ChecksumMismatch | BadJson | NotAnObject

  function Dump(lib: Library, data: map<string, Json>): string {
    var raw := lib.encode(lib.compact(Object(data)));
    PREFIX + Base64.Encode(lib.crc(raw) + lib.compress(raw))
  }

  // ── reading ────────────────────────────────────────────────────────────────

  predicate Space(c: char) {
    c == ' ' || '\t' <= c <= '\r' || '\U{001C}' <= c <= '\U{001F}' || c == '\U{0085}' || c == '\U{00A0}'
    || c == '\U{1680}' || '\U{2000}' <= c <= '\U{200A}' || c == '\U{2028}' || c == '\U{2029}' || c == '\U{202F}'
    || c == '\U{205F}' || c == '\U{3000}'
  }

  function StripFront(s: string): string {
    if s != "" && Space(s[0]) then StripFront(s[1..]) else s
  }

  function StripBack(s: string): string {
    if s != "" && Space(s[|s| - 1]) then StripBack(s[..|s| - 1]) else s
  }

  function Strip(s: string): string {
    StripBack(StripFront(s))
  }

  /** The JSON text's bytes, out of either format. */
  function Unpack(lib: Library, value: string): Result<seq<byte>, Failure> {
    if PREFIX <= value then
      match Base64.Decode(value[|PREFIX|..])
      case Err(_) => Err(BadBase64)
      case Ok(payload) =>
        if |payload| < 5 then Err(Truncated)
        else
          var raw := lib.decompress(payload[4..]);
          if raw.None? then Err(Corrupt)
          else if lib.crc(raw.value) != payload[..4] then Err(ChecksumMismatch)
          else Ok(raw.value)
    else
      match Base64.Decode(value)
      case Err(_) => Err(BadBase64)
      case Ok(raw) => Ok(raw)
  }

  function Read(lib: Library, raw: seq<byte>): Result<map<string, Json>, Failure> {
    var text := lib.decode(raw);
    if text.None? then Err(BadJson)
    else
      var data := lib.loads(text.value);
      if data.None? then Err(BadJson)
      else if !data.value.Object? then Err(NotAnObject)
      else Ok(data.value.fields)
  }

  function Load(lib: Library, sessionString: string): Result<map<string, Json>, Failure> {
    var value := Strip(sessionString);
    if value == "" then Err(Empty)
    else
      match Unpack(lib, value)
      case Err(e) => Err(e)
      case Ok(raw) => Read(lib, raw)
  }

  // ── theorems ───────────────────────────────────────────────────────────────

  lemma {:induction false} StripsAround(front: string, s: string, back: string)
    requires (forall i :: 0 <= i < |front| ==> Space(front[i])) && (forall i :: 0 <= i < |back| ==> Space(back[i]))
    requires s != "" && !Space(s[0]) && !Space(s[|s| - 1])
    ensures Strip(front + s + back) == s
    decreases |front| + |back|
  {
    hide Space;
    var whole := front + s + back;
    if front != "" {
      assert whole[0] == front[0] && whole[1..] == front[1..] + s + back;
      StripsAround(front[1..], s, back);
    } else if back != "" {
      assert whole == s + back && whole[0] == s[0] && StripFront(whole) == whole;
      var shorter := "" + s + back[..|back| - 1];
      assert whole[..|whole| - 1] == shorter && shorter[0] == s[0] && StripFront(shorter) == shorter;
      assert whole[|whole| - 1] == back[|back| - 1];
      StripsAround("", s, back[..|back| - 1]);
    } else {
      assert whole == s && StripFront(s) == s;
    }
  }

  lemma PlainIsNotSpace(c: char)
    requires Base64.ValueOf(c).Some?
    ensures !Space(c)
  {
  }

  /** A dumped string, with any white space around it, loads as what was dumped. */
  lemma LoadUndoesDump(lib: Library, data: map<string, Json>, front: string, back: string)
    requires Lawful(lib)
    requires (forall i :: 0 <= i < |front| ==> Space(front[i])) && (forall i :: 0 <= i < |back| ==> Space(back[i]))
    ensures Load(lib, front + Dump(lib, data) + back) == Ok(data)
  {
    hide Space, Base64.Encode, Base64.Decode, Base64.ValueOf;
    assert JsonBack(lib, Object(data)) && TextBack(lib, lib.compact(Object(data)));
    var raw := lib.encode(lib.compact(Object(data)));
    assert BytesBack(lib, raw);
    var payload := lib.crc(raw) + lib.compress(raw);
    var text := Base64.Encode(payload);
    Base64.RoundTrip(payload);
    EncodedEnds(payload);
    var s := PREFIX + text;
    assert s[|PREFIX|..] == text && s[|s| - 1] == text[|text| - 1] && s[0] == 'r';
    LetterIsNotSpace();
    StripsAround(front, s, back);
    assert payload[..4] == lib.crc(raw) && payload[4..] == lib.compress(raw);
  }

  lemma LetterIsNotSpace()
    ensures !Space('r')
  {
  }

  lemma EncodedEnds(raw: seq<byte>)
    requires |raw| > 0
    ensures var s := Base64.Encode(raw); s != "" && !Space(s[|s| - 1])
  {
    hide Space, Base64.Bare, Base64.Encode;
    Base64.EncodeIsBare(raw);
    Base64.BareIsPlain(raw);
    Base64.PaddedIs(raw);
    var s := Base64.Encode(raw);
    PlainIsNotSpace(s[|s| - 1]);
  }

  /** So no text of the old format starts like one of the new. */
  lemma DotIsNotPlain(s: string)
    requires Base64.Plain(s)
    ensures !(PREFIX <= s)
  {
    if |PREFIX| <= |s| {
      assert Base64.ValueOf(s[4]).Some? && PREFIX[4] == '.';
    }
  }

  /** The old format, Base64 of the JSON text alone, is still read. */
  lemma LoadsLegacy(lib: Library, data: map<string, Json>)
    requires Lawful(lib)
    requires lib.encode(lib.spaced(Object(data))) != []
    ensures Load(lib, Base64.Encode(lib.encode(lib.spaced(Object(data))))) == Ok(data)
  {
    hide Space, Base64.Bare, Base64.Encode, Base64.Decode, Base64.Padded;
    assert JsonBack(lib, Object(data)) && TextBack(lib, lib.spaced(Object(data)));
    var raw := lib.encode(lib.spaced(Object(data)));
    var s := Base64.Encode(raw);
    Base64.RoundTrip(raw);
    Base64.EncodeIsBare(raw);
    Base64.BareIsPlain(raw);
    EncodedEnds(raw);
    DotIsNotPlain(s);
    PlainIsNotSpace(s[0]);
    PlainIsNotSpace(s[|s| - 1]);
    StripsAround("", s, "");
    assert "" + s + "" == s;
  }

  /** Changing the checksum of a dumped string is noticed. */
  lemma ChecksumIsChecked(lib: Library, raw: seq<byte>, checksum: seq<byte>)
    requires Lawful(lib) && |checksum| == 4
    ensures Unpack(lib, PREFIX + Base64.Encode(checksum + lib.compress(raw)))
         == if checksum == lib.crc(raw) then Ok(raw) else Err(ChecksumMismatch)
  {
    hide Base64.Encode, Base64.Decode;
    assert BytesBack(lib, raw);
    var payload := checksum + lib.compress(raw);
    Base64.RoundTrip(payload);
    var s := PREFIX + Base64.Encode(payload);
    assert s[|PREFIX|..] == Base64.Encode(payload);
    assert payload[..4] == checksum && payload[4..] == lib.compress(raw);
  }

  lemma {:induction false} StripsToNothing(s: string)
    ensures Strip(s) == "" <==> forall i :: 0 <= i < |s| ==> Space(s[i])
    decreases |s|
  {
    hide Space;
    if s != "" && Space(s[0]) {
      StripsToNothing(s[1..]);
      assert Strip(s) == Strip(s[1..]);
      assert (forall i :: 0 <= i < |s| ==> Space(s[i])) <==> forall i :: 0 <= i < |s[1..]| ==> Space(s[1..][i]) by {
        if forall i :: 0 <= i < |s[1..]| ==> Space(s[1..][i]) {
          forall i | 0 <= i < |s|
            ensures Space(s[i])
          {
            assert i > 0 ==> s[1..][i - 1] == s[i];
          }
        }
      }
    } else if s != "" {
      BackKeepsFirst(s);
    }
  }

  lemma {:induction false} BackKeepsFirst(s: string)
    requires s != "" && !Space(s[0])
    ensures StripBack(s) != ""
  {
    hide Space;
    if |s| > 1 && Space(s[|s| - 1]) {
      BackKeepsFirst(s[..|s| - 1]);
    }
  }

  /** Why a version 2 string is refused, by what its payload decodes to, and what is read otherwise. */
  lemma VersionTwoTable(lib: Library, value: string)
    requires value != "" && Strip(value) == value && PREFIX <= value
    ensures var payload, r := Base64.Decode(value[5..]), Load(lib, value);
      if payload.Err? then r == Err(BadBase64)
      else if |payload.value| <= 4 then r == Err(Truncated)
      else
        var raw := lib.decompress(payload.value[4..]);
        if raw == None then r == Err(Corrupt)
        else if lib.crc(raw.value) != payload.value[..4] then r == Err(ChecksumMismatch)
        else ReadsAs(lib, raw.value, r)
  {
  }

  /** Bytes that are no UTF-8 or no JSON, or hold something else than an object, are refused. */
  ghost predicate ReadsAs(lib: Library, raw: seq<byte>, r: Result<map<string, Json>, Failure>) {
    var text := lib.decode(raw);
    if text == None || lib.loads(text.value) == None then r == Err(BadJson)
    else match lib.loads(text.value).value
      case Object(fields) => r == Ok(fields)
      case _ => r == Err(NotAnObject)
  }

  /** Any other string is refused when it holds nothing but white space or is no Base64, and read as it is. */
  lemma OtherTable(lib: Library, sessionString: string)
    ensures (forall i :: 0 <= i < |sessionString| ==> Space(sessionString[i])) ==> Load(lib, sessionString) == Err(Empty)
    ensures var value := Strip(sessionString);
      value != "" && !(PREFIX <= value) ==>
        if Base64.Decode(value).Err? then Load(lib, sessionString) == Err(BadBase64)
        else ReadsAs(lib, Base64.Decode(value).value, Load(lib, sessionString))
  {
    hide Base64.Decode, Strip;
    StripsToNothing(sessionString);
  }
}
