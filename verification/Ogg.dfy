/** Duration of an Ogg/Opus file: a walk over the pages of its bytes. */
module Ogg {
  import opened Common

  type byte = b: int | 0 <= b < 256

  const MAGIC: seq<byte> := [0x4F, 0x67, 0x67, 0x53]
  const OPUS_HEAD: seq<byte> := [0x4F, 0x70, 0x75, 0x73, 0x48, 0x65, 0x61, 0x64]

  // ── bytes ──────────────────────────────────────────────────────────────────

  function Power(k: nat): (r: nat)
    ensures r > 0
  {
    if k == 0 then 1 else 256 * Power(k - 1)
  }

  function ToLittleEndian(n: nat, k: nat): (r: seq<byte>)
    ensures |r| == k
  {
    if k == 0 then [] else [(n % 256) as byte] + ToLittleEndian(n / 256, k - 1)
  }

  function FromLittleEndian(s: seq<byte>): nat {
    if s == [] then 0 else s[0] + 256 * FromLittleEndian(s[1..])
  }

  lemma {:induction false} LittleEndianRoundTrip(n: nat, k: nat)
    requires n < Power(k)
    ensures FromLittleEndian(ToLittleEndian(n, k)) == n
  {
    if k > 0 {
      LittleEndianRoundTrip(n / 256, k - 1);
      assert ToLittleEndian(n, k)[1..] == ToLittleEndian(n / 256, k - 1);
    }
  }

  function Sum(table: seq<byte>): nat {
    if table == [] then 0 else table[0] + Sum(table[1..])
  }

  predicate Starts(s: seq<byte>, front: seq<byte>) {
    |front| <= |s| && s[..|front|] == front
  }

  /** The capture pattern stands at `i`. */
  predicate MagicAt(data: seq<byte>, i: nat) {
    i + 4 <= |data| && data[i..i + 4] == MAGIC
  }

  function FindMagic(data: seq<byte>, from: nat): (r: Option<nat>)
    ensures r.Some? ==> from <= r.value && r.value + 4 <= |data|
    decreases |data| - from
  {
    if from >= |data| then None
    else if MagicAt(data, from) then Some(from)
    else FindMagic(data, from + 1)
  }

  // ── one page ───────────────────────────────────────────────────────────────

  /** What the walk has learnt. */
  datatype Known = Known(preSkip: nat, head: bool, granule: Option<nat>)

  const NOTHING := Known(0, false, None)

  /** Packets that end on a page; `packet` is what the earlier segments left open. */
  function Split(table: seq<byte>, payload: seq<byte>, packet: seq<byte>): seq<seq<byte>>
    requires |payload| == Sum(table)
  {
    if table == [] then []
    else
      var grown := packet + payload[..table[0]];
      if table[0] < 255 then [grown] + Split(table[1..], payload[table[0]..], [])
      else Split(table[1..], payload[table[0]..], grown)
  }

  predicate IsHead(packet: seq<byte>) {
    Starts(packet, OPUS_HEAD) && |packet| >= 12
  }

  function SeePacket(k: Known, packet: seq<byte>): Known {
    if !k.head && IsHead(packet) then k.(preSkip := FromLittleEndian(packet[10..12]), head := true) else k
  }

  function SeePackets(k: Known, packets: seq<seq<byte>>): Known
    decreases |packets|
  {
    if packets == [] then k else SeePackets(SeePacket(k, packets[0]), packets[1..])
  }

  function SeeGranule(k: Known, granule: nat): Known {
    if granule != 0 then k.(granule := Some(granule)) else k
  }

  /** A page in the file: where it ends, and its fields. */
  datatype Raw = Raw(end: nat, granule: nat, table: seq<byte>, payload: seq<byte>)

  /** The page at `offset`, if its header and payload are all there. */
  function PageAt(data: seq<byte>, offset: nat): (r: Option<Raw>)
    ensures r.Some? ==> offset + 27 <= r.value.end <= |data| && |r.value.payload| == Sum(r.value.table)
  {
    if offset + 27 > |data| then None
    else
      var header := 27 + data[offset + 26] as int;
      if offset + header > |data| then None
      else
        var table := data[offset + 27..offset + header];
        var end := offset + header + Sum(table);
        if end > |data| then None
        else Some(Raw(end, FromLittleEndian(data[offset + 6..offset + 14]), table, data[offset + header..end]))
  }

  function SeePage(k: Known, page: Raw): Known
    requires |page.payload| == Sum(page.table)
  {
    SeePackets(SeeGranule(k, page.granule), Split(page.table, page.payload, []))
  }

  // ── the walk ───────────────────────────────────────────────────────────────

  function Walk(data: seq<byte>, offset: nat, k: Known): Known
    decreases |data| - offset
  {
    if offset + 27 > |data| then k
    else if !MagicAt(data, offset) then
      var next := FindMagic(data, offset + 1);
      if next.None? then k else Walk(data, next.value, k)
    else
      var page := PageAt(data, offset);
      if page.None? then k else Walk(data, page.value.end, SeePage(k, page.value))
  }

  /** Milliseconds at 48 kHz. */
  function Duration(k: Known): real {
    if !k.head || k.granule.None? then 0.0
    else Max(0, k.granule.value - k.preSkip) as real * 1000.0 / 48000.0
  }

  function Parse(data: seq<byte>): real {
    Duration(Walk(data, 0, NOTHING))
  }

  /** The loop over one page's segments, with its one packet buffer. */
  method ReadPackets(known: Known, table: seq<byte>, payload: seq<byte>) returns (k: Known)
    requires |payload| == Sum(table)
    ensures k == SeePackets(known, Split(table, payload, []))
  {
    k := known;
    var payloadOffset, packet := 0, [];
    assert payload[0..] == payload && table[0..] == table;
    for i := 0 to |table|
      invariant payloadOffset + Sum(table[i..]) == |payload|
      invariant SeePackets(k, Split(table[i..], payload[payloadOffset..], packet)) == SeePackets(known, Split(table, payload, []))
    {
      var length := table[i];
      ghost var rest, left := table[i..], payload[payloadOffset..];
      assert rest[0] == length && rest[1..] == table[i + 1..];
      assert left[..length] == payload[payloadOffset..payloadOffset + length];
      assert left[length..] == payload[payloadOffset + length..];
      packet := packet + payload[payloadOffset..payloadOffset + length];
      payloadOffset := payloadOffset + length;
      if length < 255 {
        k := SeePacket(k, packet);
        packet := [];
      }
    }
  }

  method ParseOggOpusDurationMs(data: seq<byte>) returns (ms: real)
    ensures ms == Parse(data)
  {
    hide SeePackets, Split, FromLittleEndian, Sum;
    var offset, k := 0, NOTHING;
    while offset + 27 <= |data|
      invariant Walk(data, offset, k) == Walk(data, 0, NOTHING)
      decreases |data| - offset
    {
      if data[offset..offset + 4] != MAGIC {
        var next := FindMagic(data, offset + 1);
        if next.None? { break; }
        offset := next.value;
        continue;
      }
      var headerSize := 27 + data[offset + 26] as int;
      if offset + headerSize > |data| { break; }
      var table := data[offset + 27..offset + headerSize];
      var pageEnd := offset + headerSize + Sum(table);
      if pageEnd > |data| { break; }
      var granule := FromLittleEndian(data[offset + 6..offset + 14]);
      if granule != 0 {
        k := k.(granule := Some(granule));
      }
      k := ReadPackets(k, table, data[offset + headerSize..pageEnd]);
      offset := pageEnd;
    }
    if !k.head || k.granule.None? {
      return 0.0;
    }
    return Max(0, k.granule.value - k.preSkip) as real * 1000.0 / 48000.0;
  }
}
