/** The session's stored fields, in memory, and moving them as a session string. */
module SessionStorage {
  import opened Common
  import opened SessionCodec

  // ── the field table ────────────────────────────────────────────────────────

  datatype Field =
    | ApiVersion | ApiUrl | ApiUrls | SuggestedUrls | Storages
    | CdnUrls | Sockets | DcRepository | Auth | TmpSession
    | PublicKey | PrivateKeyPem | UserGuid | UpdatesState | ContactsState
    | FoldersState | ChatStates | DeviceHash | RegisteredDevice | RegisteredDeviceVersion
    | BotToken | BotOffsetId

  datatype ValueKind = TextKind | IntKind | BoolKind | JsonKind

  function Name(f: Field): string {
    match f
    case ApiVersion => "api_version"
    case ApiUrl => "api_url"
    case ApiUrls => "api_urls"
    case SuggestedUrls => "suggested_urls"
    case Storages => "storages"
    case CdnUrls => "cdn_urls"
    case Sockets => "sockets"
    case DcRepository => "dc_repository"
    case Auth => "auth"
    case TmpSession => "tmp_session"
    case PublicKey => "public_key"
    case PrivateKeyPem => "private_key_pem"
    case UserGuid => "user_guid"
    case UpdatesState => "updates_state"
    case ContactsState => "contacts_state"
    case FoldersState => "folders_state"
    case ChatStates => "chat_states"
    case DeviceHash => "device_hash"
    case RegisteredDevice => "registered_device"
    case RegisteredDeviceVersion => "registered_device_version"
    case BotToken => "bot_token"
    case BotOffsetId => "bot_offset_id"
  }

  function KindOf(f: Field): ValueKind {
    match f
    case ApiUrls | SuggestedUrls | Storages | CdnUrls | Sockets | DcRepository | ChatStates => JsonKind
    case UpdatesState | ContactsState | FoldersState => IntKind
    case RegisteredDevice => BoolKind
    case _ => TextKind
  }

  const DEFAULT_API_VERSION := "6"

  function Default(f: Field): Json {
    match f
    case ApiVersion => Text(DEFAULT_API_VERSION)
    case RegisteredDevice => Bool(false)
    case _ => Null
  }

  const COUNT := 22

  /** The table's order. */
  function Place(f: Field): (r: nat)
    ensures r < COUNT
  {
    match f
    case ApiVersion => 0
    case ApiUrl => 1
    case ApiUrls => 2
    case SuggestedUrls => 3
    case Storages => 4
    case CdnUrls => 5
    case Sockets => 6
    case DcRepository => 7
    case Auth => 8
    case TmpSession => 9
    case PublicKey => 10
    case PrivateKeyPem => 11
    case UserGuid => 12
    case UpdatesState => 13
    case ContactsState => 14
    case FoldersState => 15
    case ChatStates => 16
    case DeviceHash => 17
    case RegisteredDevice => 18
    case RegisteredDeviceVersion => 19
    case BotToken => 20
    case BotOffsetId => 21
  }

  function At(i: nat): Field {
    if i == 0 then ApiVersion
    else if i == 1 then ApiUrl
    else if i == 2 then ApiUrls
    else if i == 3 then SuggestedUrls
    else if i == 4 then Storages
    else if i == 5 then CdnUrls
    else if i == 6 then Sockets
    else if i == 7 then DcRepository
    else if i == 8 then Auth
    else if i == 9 then TmpSession
    else if i == 10 then PublicKey
    else if i == 11 then PrivateKeyPem
    else if i == 12 then UserGuid
    else if i == 13 then UpdatesState
    else if i == 14 then ContactsState
    else if i == 15 then FoldersState
    else if i == 16 then ChatStates
    else if i == 17 then DeviceHash
    else if i == 18 then RegisteredDevice
    else if i == 19 then RegisteredDeviceVersion
    else if i == 20 then BotToken
    else BotOffsetId
  }

  lemma PlaceOfAt(i: nat)
    requires i < COUNT
    ensures Place(At(i)) == i
  {
  }

  lemma AtPlace(f: Field)
    ensures At(Place(f)) == f
  {
  }

  /** Length and first letter tell the names apart. */
  function Code(name: string): int {
    if name == "" then 0 else 1000 * |name| + name[0] as int
  }

  function FromCode(code: int): Field {
    if code == 11097 then ApiVersion
    else if code == 7097 then ApiUrl
    else if code == 8097 then ApiUrls
    else if code == 14115 then SuggestedUrls
    else if code == 8115 then Storages
    else if code == 8099 then CdnUrls
    else if code == 7115 then Sockets
    else if code == 13100 then DcRepository
    else if code == 4097 then Auth
    else if code == 11116 then TmpSession
    else if code == 10112 then PublicKey
    else if code == 15112 then PrivateKeyPem
    else if code == 9117 then UserGuid
    else if code == 13117 then UpdatesState
    else if code == 14099 then ContactsState
    else if code == 13102 then FoldersState
    else if code == 11099 then ChatStates
    else if code == 11100 then DeviceHash
    else if code == 17114 then RegisteredDevice
    else if code == 25114 then RegisteredDeviceVersion
    else if code == 9098 then BotToken
    else BotOffsetId
  }

  function CodeOf(f: Field): int {
    match f
    case ApiVersion => 11097
    case ApiUrl => 7097
    case ApiUrls => 8097
    case SuggestedUrls => 14115
    case Storages => 8115
    case CdnUrls => 8099
    case Sockets => 7115
    case DcRepository => 13100
    case Auth => 4097
    case TmpSession => 11116
    case PublicKey => 10112
    case PrivateKeyPem => 15112
    case UserGuid => 9117
    case UpdatesState => 13117
    case ContactsState => 14099
    case FoldersState => 13102
    case ChatStates => 11099
    case DeviceHash => 11100
    case RegisteredDevice => 17114
    case RegisteredDeviceVersion => 25114
    case BotToken => 9098
    case BotOffsetId => 13098
  }

  lemma CodeIsRight(f: Field)
    ensures Code(Name(f)) == CodeOf(f)
  {
  }

  lemma CodeTells(f: Field)
    ensures FromCode(CodeOf(f)) == f
  {
  }

  lemma NamesDiffer(f: Field, g: Field)
    requires Name(f) == Name(g)
    ensures f == g
  {
    hide Name, CodeOf, FromCode, Code;
    CodeIsRight(f);
    CodeIsRight(g);
    CodeTells(f);
    CodeTells(g);
  }

  // ── stored values ──────────────────────────────────────────────────────────

  /** What the dictionary holds for a field. */
  datatype Raw = Nothing | TextRaw(text: string) | IntRaw(n: int)

  predicate Truthy(v: Json) {
    match v
    case Null => false
    case Bool(on) => on
    case Int(n) => n != 0
    case Number(written) => written != "0.0" && written != "-0.0"
    case Text(text) => text != ""
    case List(values) => values != []
    case Object(fields) => fields != map[]
  }

  /** None: `int()` raised. */
  function EncodeValue(lib: Library, f: Field, v: Json): Option<Raw> {
    if v.Null? then Some(Nothing)
    else
      match KindOf(f)
      case JsonKind => Some(TextRaw(lib.spaced(v)))
      case BoolKind => Some(IntRaw(if Truthy(v) then 1 else 0))
      case IntKind => (var n := lib.toInt(v); if n.None? then None else Some(IntRaw(n.value)))
      case TextKind => Some(TextRaw(lib.toStr(v)))
  }

  function DecodeValue(lib: Library, f: Field, raw: Raw): Json {
    if raw.Nothing? then Default(f)
    else
      match KindOf(f)
      case JsonKind =>
        if raw.IntRaw? then Int(raw.n)
        else (var v := lib.loads(raw.text); if v.None? then Default(f) else v.value)
      case BoolKind => Bool(if raw.IntRaw? then raw.n != 0 else raw.text != "")
      case IntKind =>
        if raw.IntRaw? then Int(raw.n)
        else (var n := lib.toInt(Text(raw.text)); if n.None? then Default(f) else Int(n.value))
      case TextKind => Text(if raw.IntRaw? then lib.toStr(Int(raw.n)) else raw.text)
  }

  type Values = map<string, Raw>

  function Get(lib: Library, values: Values, f: Field): Json {
    DecodeValue(lib, f, if Name(f) in values then values[Name(f)] else Nothing)
  }

  /** What `_set` stores: a missing API version becomes the default one. */
  function Stored(lib: Library, f: Field, v: Json): Option<Raw> {
    EncodeValue(lib, f, if f == ApiVersion && v.Null? then Default(f) else v)
  }

  function FreshValues(lib: Library, n: nat): Values
    requires n <= COUNT
  {
    if n == 0 then map[]
    else
      var raw := EncodeValue(lib, At(n - 1), Default(At(n - 1)));
      FreshValues(lib, n - 1)[Name(At(n - 1)) := if raw.None? then Nothing else raw.value]
  }

  // ── export and import ──────────────────────────────────────────────────────

  function Export(lib: Library, values: Values, n: nat): map<string, Json>
    requires n <= COUNT
  {
    if n == 0 then map[]
    else Export(lib, values, n - 1)[Name(At(n - 1)) := Get(lib, values, At(n - 1))]
  }

  /** The value an import writes for a field. */
  function Given(lib: Library, f: Field, v: Json): Json {
    if f == ApiVersion && !v.Null? then Text(lib.toStr(v)) else v
  }

  /** The import loop from field `i` on; stops at the first value that does not convert. */
  function Import(lib: Library, values: Values, data: map<string, Json>, i: nat): (Values, bool)
    requires i <= COUNT
    decreases COUNT - i
  {
    if i == COUNT then (values, true)
    else
      var f := At(i);
      if Name(f) !in data then Import(lib, values, data, i + 1)
      else
        var raw := Stored(lib, f, Given(lib, f, data[Name(f)]));
        if raw.None? then (values, false)
        else Import(lib, values[Name(f) := raw.value], data, i + 1)
  }

  /** A value that the import cannot convert. */
  predicate Bad(lib: Library, data: map<string, Json>, f: Field) {
    Name(f) in data && KindOf(f) == IntKind && !data[Name(f)].Null? && lib.toInt(data[Name(f)]).None?
  }

  /** Where the import stops. */
  function Stop(lib: Library, data: map<string, Json>, i: nat): (r: nat)
    requires i <= COUNT
    ensures i <= r <= COUNT
    ensures r < COUNT ==> Bad(lib, data, At(r))
    ensures forall k :: i <= k < r ==> !Bad(lib, data, At(k))
    decreases COUNT - i
  {
    if i == COUNT || Bad(lib, data, At(i)) then i else Stop(lib, data, i + 1)
  }

  /** What a field reads as after it was set to `v`. */
  function Kept(lib: Library, f: Field, v: Json): Json {
    var raw := Stored(lib, f, Given(lib, f, v));
    DecodeValue(lib, f, if raw.None? then Nothing else raw.value)
  }

  /** What every field reads as after an import gave it `v`, by the field and the value alone. */
  lemma KeptTable(lib: Library, f: Field, v: Json)
    requires Lawful(lib)
    ensures var kept := Kept(lib, f, v);
      if v == Null then
        kept == if f == ApiVersion then Text("6") else if f == RegisteredDevice then Bool(false) else Null
      else match KindOf(f)
        case JsonKind => kept == v
        case BoolKind => kept == Bool(v != Bool(false) && v != Int(0) && v != Number("0.0") && v != Number("-0.0")
                                      && v != Text("") && v != List([]) && v != Object(map[]))
        case IntKind => lib.toInt(v).Some? ==> kept == Int(lib.toInt(v).value)
        case TextKind => kept == Text(lib.toStr(v))
  {
    assert JsonBack(lib, v);
  }

  lemma BadIsUnstorable(lib: Library, data: map<string, Json>, f: Field)
    requires Name(f) in data
    ensures Bad(lib, data, f) <==> Stored(lib, f, Given(lib, f, data[Name(f)])).None?
  {
    hide Name;
  }

  /** The import writes, in table order, every given field before the first that does not convert, and leaves
      every other field alone. */
  lemma {:induction false} ImportWrites(lib: Library, values: Values, data: map<string, Json>, i: nat, g: Field)
    requires i <= COUNT
    ensures var (after, ok) := Import(lib, values, data, i);
      && ok == (Stop(lib, data, i) == COUNT)
      && Get(lib, after, g) ==
         if i <= Place(g) < Stop(lib, data, i) && Name(g) in data then Kept(lib, g, data[Name(g)]) else Get(lib, values, g)
    decreases COUNT - i
  {
    hide At, Place, Name, Bad, Stored, Given, DecodeValue, Get, Kept;
    if i < COUNT {
      var f := At(i);
      PlaceOfAt(i);
      AtPlace(g);
      if Name(f) !in data {
        NotGiven(lib, data, f);
        ImportWrites(lib, values, data, i + 1, g);
      } else {
        BadIsUnstorable(lib, data, f);
        var raw := Stored(lib, f, Given(lib, f, data[Name(f)]));
        if raw.Some? {
          var next := values[Name(f) := raw.value];
          ImportWrites(lib, next, data, i + 1, g);
          WritesOne(lib, values, f, data[Name(f)], g);
        }
      }
    }
  }

  lemma WritesOne(lib: Library, values: Values, f: Field, v: Json, g: Field)
    requires Stored(lib, f, Given(lib, f, v)).Some?
    ensures Get(lib, values[Name(f) := Stored(lib, f, Given(lib, f, v)).value], g) == if f == g then Kept(lib, g, v) else Get(lib, values, g)
  {
    hide Name, Stored, Given, DecodeValue;
    if Name(f) == Name(g) {
      NamesDiffer(f, g);
    }
  }

  lemma NotGiven(lib: Library, data: map<string, Json>, f: Field)
    requires Name(f) !in data
    ensures !Bad(lib, data, f)
  {
  }

  /** An import fails exactly when some given integer field holds a value that is no integer. */
  lemma ImportFailsExactlyWhen(lib: Library, values: Values, data: map<string, Json>)
    ensures !Import(lib, values, data, 0).1 <==> exists f: Field :: Bad(lib, data, f)
  {
    hide At, Place, Name, Bad, Import;
    ImportWrites(lib, values, data, 0, ApiVersion);
    var stop := Stop(lib, data, 0);
    if stop < COUNT {
      assert Bad(lib, data, At(stop));
    }
    forall f: Field | Bad(lib, data, f)
      ensures stop < COUNT
    {
      AtPlace(f);
      Placed(f);
      assert Bad(lib, data, At(Place(f)));
    }
  }

  // ── the round trip ─────────────────────────────────────────────────────────

  lemma {:induction false} Exports(lib: Library, values: Values, n: nat, g: Field)
    requires n <= COUNT
    ensures var data := Export(lib, values, n);
      && (Name(g) in data <==> Place(g) < n)
      && (Place(g) < n ==> data[Name(g)] == Get(lib, values, g))
  {
    hide At, Place, Name, Get;
    if n > 0 {
      Exports(lib, values, n - 1, g);
      PlaceOfAt(n - 1);
      AtPlace(g);
      if Name(At(n - 1)) == Name(g) {
        NamesDiffer(At(n - 1), g);
      }
    }
  }

  /** Whatever a field reads as, writing that back keeps it. */
  lemma ReadValuesAreKept(lib: Library, values: Values, f: Field)
    requires Lawful(lib)
    ensures Kept(lib, f, Get(lib, values, f)) == Get(lib, values, f)
    ensures Stored(lib, f, Given(lib, f, Get(lib, values, f))).Some?
  {
    hide Name;
    assert JsonBack(lib, Get(lib, values, f));
  }

  /** Importing an exported session into any storage restores every field, whatever either held. */
  lemma ExportRestores(lib: Library, from: Values, into: Values)
    requires Lawful(lib)
    ensures var (after, ok) := Import(lib, into, Export(lib, from, COUNT), 0);
      ok && forall f: Field :: Get(lib, after, f) == Get(lib, from, f)
  {
    hide At, Place, Name, Bad, Stored, Given, Get, Import, Export, Stop, Lawful;
    var data := Export(lib, from, COUNT);
    forall f: Field
      ensures !Bad(lib, data, f)
    {
      Exports(lib, from, COUNT, f);
      ReadValuesAreKept(lib, from, f);
      BadIsUnstorable(lib, data, f);
    }
    forall f: Field
      ensures Get(lib, Import(lib, into, data, 0).0, f) == Get(lib, from, f)
    {
      Exports(lib, from, COUNT, f);
      ReadValuesAreKept(lib, from, f);
      ImportWrites(lib, into, data, 0, f);
      Placed(f);
    }
    ImportFailsExactlyWhen(lib, into, data);
  }

  lemma Placed(f: Field)
    ensures Place(f) < COUNT
  {
  }

  /** The same over the session string, with any white space around it. */
  lemma SessionStringRestores(lib: Library, from: Values, into: Values, front: string, back: string)
    requires Lawful(lib)
    requires (forall i :: 0 <= i < |front| ==> Space(front[i])) && (forall i :: 0 <= i < |back| ==> Space(back[i]))
    ensures var data := Load(lib, front + Dump(lib, Export(lib, from, COUNT)) + back);
      && data.Ok?
      && (var (after, ok) := Import(lib, into, data.value, 0);
          ok && forall f: Field :: Get(lib, after, f) == Get(lib, from, f))
  {
    hide Get, Import, Export, Lawful, Load, Dump, Space;
    LoadUndoesDump(lib, Export(lib, from, COUNT), front, back);
    ExportRestores(lib, from, into);
  }

  /** A storage that was just created reads as the table's defaults. */
  lemma {:induction false} FreshReadsDefaults(lib: Library, n: nat, f: Field)
    requires Lawful(lib) && n <= COUNT
    ensures Get(lib, FreshValues(lib, n), f) == Default(f)
  {
    hide At, Name, Default, EncodeValue, DecodeValue, Lawful;
    NothingReadsDefault(lib, f);
    if n > 0 {
      FreshReadsDefaults(lib, n - 1, f);
      var last := At(n - 1);
      DefaultIsKept(lib, last);
      if Name(last) == Name(f) {
        NamesDiffer(last, f);
      }
    }
  }

  lemma NothingReadsDefault(lib: Library, f: Field)
    ensures DecodeValue(lib, f, Nothing) == Default(f)
  {
  }

  lemma DefaultIsKept(lib: Library, f: Field)
    requires Lawful(lib)
    ensures var raw := EncodeValue(lib, f, Default(f)); raw.Some? && DecodeValue(lib, f, raw.value) == Default(f)
  {
    assert JsonBack(lib, Default(f));
  }

  // ── the storage object ─────────────────────────────────────────────────────

  datatype StorageFailure = Closed | BadString(cause: Failure) | NotAnInteger

  /** An import's new values and outcome. */
  ghost predicate Imported(lib: Library, before: Values, data: map<string, Json>, after: Values, r: Result<(), StorageFailure>) {
    var (values, ok) := Import(lib, before, data, 0);
    after == values && r == if ok then Ok(()) else Err(NotAnInteger)
  }

  class MemoryStorage {
    const lib: Library
    const sessionString: string
    var values: Values
    var isOpen: bool
    var seeded: bool

    constructor (lib: Library, sessionString: string)
      ensures this.lib == lib && this.sessionString == sessionString
      ensures values == FreshValues(lib, COUNT) && !isOpen && !seeded
    {
      this.lib, this.sessionString := lib, sessionString;
      values, isOpen, seeded := FreshValues(lib, COUNT), false, false;
    }

    /** Opens, and imports the given session string the first time only, even if that fails. */
    method Open() returns (r: Result<(), StorageFailure>)
      modifies this
      ensures isOpen && seeded == (old(seeded) || sessionString != "")
      ensures old(seeded) || sessionString == "" ==> values == old(values) && r.Ok?
      ensures !old(seeded) && sessionString != "" ==>
        match Load(lib, sessionString)
        case Err(e) => values == old(values) && r == Err(BadString(e))
        case Ok(data) => Imported(lib, old(values), data, values, r)
    {
      isOpen := true;
      if sessionString == "" || seeded {
        return Ok(());
      }
      seeded := true;
      var data := Load(lib, sessionString);
      if data.Err? {
        return Err(BadString(data.error));
      }
      r := ImportSessionDict(data.value);
    }

    method ReadField(f: Field) returns (r: Result<Json, StorageFailure>)
      ensures r == if isOpen then Ok(Get(lib, values, f)) else Err(Closed)
    {
      if !isOpen {
        return Err(Closed);
      }
      return Ok(Get(lib, values, f));
    }

    method WriteField(f: Field, v: Json) returns (r: Result<(), StorageFailure>)
      modifies `values
      ensures !isOpen ==> r == Err(Closed) && values == old(values)
      ensures isOpen && Stored(lib, f, v).None? ==> r == Err(NotAnInteger) && values == old(values)
      ensures isOpen && Stored(lib, f, v).Some? ==> r == Ok(()) && values == old(values)[Name(f) := Stored(lib, f, v).value]
    {
      if !isOpen {
        return Err(Closed);
      }
      var given := if f == ApiVersion && v.Null? then Default(f) else v;
      var raw := EncodeValue(lib, f, given);
      if raw.None? {
        return Err(NotAnInteger);
      }
      values := values[Name(f) := raw.value];
      return Ok(());
    }

    method ImportSessionDict(data: map<string, Json>) returns (r: Result<(), StorageFailure>)
      modifies `values
      ensures !isOpen ==> values == old(values)
      ensures !isOpen ==> (r == Err(Closed) <==> exists f: Field :: Name(f) in data) && (r.Ok? || r == Err(Closed))
      ensures isOpen ==> Imported(lib, old(values), data, values, r)
    {
      hide At, Place, Name, Stored, Given;
      for i := 0 to COUNT
        invariant !isOpen ==> values == old(values) && forall k :: 0 <= k < i ==> Name(At(k)) !in data
        invariant isOpen ==> Import(lib, values, data, i) == Import(lib, old(values), data, 0)
      {
        var f := At(i);
        if Name(f) in data {
          var done := WriteField(f, Given(lib, f, data[Name(f)]));
          if done.Err? {
            return done;
          }
        }
      }
      forall f: Field | !isOpen
        ensures Name(f) !in data
      {
        AtPlace(f);
        Placed(f);
      }
      return Ok(());
    }

    method ExportSessionString() returns (r: Result<string, StorageFailure>)
      ensures r == if isOpen then Ok(Dump(lib, Export(lib, values, COUNT))) else Err(Closed)
    {
      if !isOpen {
        return Err(Closed);
      }
      var data: map<string, Json> := map[];
      for i := 0 to COUNT
        invariant data == Export(lib, values, i)
      {
        var v := ReadField(At(i));
        data := data[Name(At(i)) := v.value];
      }
      return Ok(Dump(lib, data));
    }

    method ImportSessionString(text: string) returns (r: Result<(), StorageFailure>)
      modifies `values
      ensures match Load(lib, text)
        case Err(e) => values == old(values) && r == Err(BadString(e))
        case Ok(data) =>
          && (isOpen ==> Imported(lib, old(values), data, values, r))
          && (!isOpen ==> values == old(values) && (r.Ok? || r == Err(Closed)))
    {
      var data := Load(lib, text);
      if data.Err? {
        return Err(BadString(data.error));
      }
      r := ImportSessionDict(data.value);
    }

    /** The values stay. */
    method Close()
      modifies `isOpen
      ensures !isOpen
    {
      isOpen := false;
    }

    method Delete()
      modifies `values
      ensures values == FreshValues(lib, COUNT)
    {
      values := FreshValues(lib, COUNT);
    }
  }

  /** Exporting one storage and importing the string into another makes every field of the second read as in
      the first. */
  method Copy(a: MemoryStorage, b: MemoryStorage) returns (r: Result<(), StorageFailure>)
    requires a != b && a.isOpen && b.isOpen && a.lib == b.lib && Lawful(a.lib)
    modifies b`values
    ensures r.Ok? && forall f: Field :: Get(b.lib, b.values, f) == Get(a.lib, a.values, f)
  {
    hide Dump, Load, Import, Export, Get, Lawful, Space;
    var text := a.ExportSessionString();
    SessionStringRestores(a.lib, a.values, b.values, "", "");
    assert "" + text.value + "" == text.value;
    r := b.ImportSessionString(text.value);
  }
}
