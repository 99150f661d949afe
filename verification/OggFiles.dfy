/** Writing Ogg pages (section 6 of RFC 3533), and what the walk makes of the bytes. */
module OggFiles {
  import opened Common
  import opened Ogg

  /** A page by its contents: packets ending on it, and the whole segments of one that does not. */
  datatype Page = Page(version: byte, flags: byte, granule: nat, ids: seq<byte>, packets: seq<seq<byte>>, open: seq<byte>)

  /** Lacing values of a packet that ends on the page. */
  function Lacing(n: nat): seq<byte> {
    if n < 255 then [n as byte] else [255] + Lacing(n - 255)
  }

  function Laces(packets: seq<seq<byte>>): seq<byte> {
    if packets == [] then [] else Lacing(|packets[0]|) + Laces(packets[1..])
  }

  function Join(packets: seq<seq<byte>>): seq<byte> {
    if packets == [] then [] else packets[0] + Join(packets[1..])
  }

  predicate WholeSegments(n: nat) {
    n == 0 || (n >= 255 && WholeSegments(n - 255))
  }

  function FullSegments(n: nat): seq<byte> {
    if n < 255 then [] else [255] + FullSegments(n - 255)
  }

  function Table(p: Page): seq<byte> {
    Laces(p.packets) + FullSegments(|p.open|)
  }

  function Payload(p: Page): seq<byte> {
    Join(p.packets) + p.open
  }

  ghost predicate Writable(p: Page) {
    p.granule < Power(8) && |p.ids| == 12 && WholeSegments(|p.open|) && |Table(p)| < 256
  }

  function Head(p: Page): seq<byte> {
    MAGIC + [p.version, p.flags] + ToLittleEndian(p.granule, 8) + p.ids + [Min(|Table(p)|, 255) as byte]
  }

  function Bytes(p: Page): seq<byte> {
    Head(p) + Table(p) + Payload(p)
  }

  // ── lacing ─────────────────────────────────────────────────────────────────

  lemma {:induction false} SumJoins(a: seq<byte>, b: seq<byte>)
    ensures Sum(a + b) == Sum(a) + Sum(b)
  {
    if a == [] {
      assert a + b == b;
    } else {
      SumJoins(a[1..], b);
      assert (a + b)[1..] == a[1..] + b;
    }
  }

  lemma {:induction false} LacingSums(n: nat)
    ensures Sum(Lacing(n)) == n
  {
    if n >= 255 {
      LacingSums(n - 255);
      assert Lacing(n)[1..] == Lacing(n - 255);
    }
  }

  lemma SplitStep(v: byte, table: seq<byte>, front: seq<byte>, payload: seq<byte>, packet: seq<byte>)
    requires |front| == v && |payload| == Sum(table)
    ensures Sum([v] + table) == |front + payload|
    ensures Split([v] + table, front + payload, packet)
         == if v < 255 then [packet + front] + Split(table, payload, []) else Split(table, payload, packet + front)
  {
    var t, q := [v] + table, front + payload;
    assert t[0] == v && t[1..] == table;
    assert q[..v] == front && q[v..] == payload;
  }

  /** Reading back one packet's segments. */
  lemma {:induction false} SplitLacing(p: seq<byte>, table: seq<byte>, payload: seq<byte>, packet: seq<byte>)
    requires |payload| == Sum(table)
    ensures Sum(Lacing(|p|) + table) == |p + payload|
    ensures Split(Lacing(|p|) + table, p + payload, packet) == [packet + p] + Split(table, payload, [])
    decreases |p|
  {
    hide Split, Sum;
    if |p| < 255 {
      SplitStep(|p|, table, p, payload, packet);
    } else {
      var front, rest := p[..255], p[255..];
      SplitLacing(rest, table, payload, packet + front);
      SplitStep(255, Lacing(|rest|) + table, front, rest + payload, packet);
      assert Lacing(|p|) + table == [255] + (Lacing(|rest|) + table);
      assert p + payload == front + (rest + payload) && packet + front + rest == packet + p;
    }
  }

  lemma {:induction false} SplitOpen(open: seq<byte>, packet: seq<byte>)
    requires WholeSegments(|open|)
    ensures Sum(FullSegments(|open|)) == |open|
    ensures Split(FullSegments(|open|), open, packet) == []
    decreases |open|
  {
    if open != [] {
      var front, rest := open[..255], open[255..];
      SplitOpen(rest, packet + front);
      SplitStep(255, FullSegments(|rest|), front, rest, packet);
      assert open == front + rest;
    }
  }

  lemma LacesFirst(packets: seq<seq<byte>>, full: seq<byte>, open: seq<byte>)
    requires packets != []
    ensures Laces(packets) + full == Lacing(|packets[0]|) + (Laces(packets[1..]) + full)
    ensures Join(packets) + open == packets[0] + (Join(packets[1..]) + open)
  {
    Associates(Lacing(|packets[0]|), Laces(packets[1..]), full);
    Associates(packets[0], Join(packets[1..]), open);
    hide Lacing;
  }

  lemma Associates(a: seq<byte>, b: seq<byte>, c: seq<byte>)
    ensures a + b + c == a + (b + c)
  {
  }

  /** The segments of a page give back its packets; the unfinished one is not seen. */
  lemma {:induction false} SplitPage(packets: seq<seq<byte>>, open: seq<byte>)
    requires WholeSegments(|open|)
    ensures Sum(Laces(packets) + FullSegments(|open|)) == |Join(packets) + open|
    ensures Split(Laces(packets) + FullSegments(|open|), Join(packets) + open, []) == packets
    decreases |packets|
  {
    hide Split, Sum, Lacing, FullSegments, WholeSegments;
    var full := FullSegments(|open|);
    if packets == [] {
      SplitOpen(open, []);
      assert [] + full == full && [] + open == open;
    } else {
      var p, rest := packets[0], packets[1..];
      SplitPage(rest, open);
      SplitLacing(p, Laces(rest) + full, Join(rest) + open, []);
      LacesFirst(packets, full, open);
      hide Laces, Join;
      assert [] + p == p;
      assert packets == [p] + rest;
    }
  }

  // ── one page in the file ───────────────────────────────────────────────────

  lemma HeadFields(p: Page)
    requires Writable(p)
    ensures var h := Head(p);
      && |h| == 27 && h[..4] == MAGIC && h[6..14] == ToLittleEndian(p.granule, 8) && h[26] == |Table(p)|
  {
  }

  /** A whole page is read as it was written. */
  lemma PageIsRead(p: Page, rest: seq<byte>)
    requires Writable(p)
    ensures |Payload(p)| == Sum(Table(p))
    ensures PageAt(Bytes(p) + rest, 0) == Some(Raw(|Bytes(p)|, p.granule, Table(p), Payload(p)))
    ensures MagicAt(Bytes(p) + rest, 0)
  {
    hide Head, Table, Payload, Sum, ToLittleEndian, FromLittleEndian, Power;
    SizesAgree(p);
    HeadFields(p);
    LittleEndianRoundTrip(p.granule, 8);
    var data, h, t := Bytes(p) + rest, Head(p), Table(p);
    assert data[..27] == h;
    assert data[0..4] == h[..4] && data[6..14] == h[6..14] && data[26] == h[26];
    assert data[27..27 + |t|] == t;
    assert data[27 + |t|..|Bytes(p)|] == Payload(p);
  }

  lemma SizesAgree(p: Page)
    requires Writable(p)
    ensures |Payload(p)| == Sum(Table(p)) && Split(Table(p), Payload(p), []) == p.packets
  {
    hide Split, Sum, Laces, Join, FullSegments;
    SplitPage(p.packets, p.open);
  }

  /** A page cut short is not read. */
  lemma CutPageIsNotRead(p: Page, n: nat)
    requires Writable(p) && n < |Bytes(p)|
    ensures PageAt(Bytes(p)[..n], 0) == None
    ensures n >= 4 ==> MagicAt(Bytes(p)[..n], 0)
  {
    hide Head, Table, Payload, Sum, ToLittleEndian, FromLittleEndian, Power;
    SizesAgree(p);
    HeadFields(p);
    var data, whole, h, t := Bytes(p)[..n], Bytes(p), Head(p), Table(p);
    assert whole[..4] == h[..4];
    if n >= 4 {
      assert data[0..4] == whole[..4];
    }
    if n >= 27 {
      assert data[26] == whole[26] == h[26];
      if n >= 27 + |t| {
        assert data[27..27 + |t|] == whole[27..27 + |t|] == t;
      }
    }
  }

  // ── a file of pages ────────────────────────────────────────────────────────

  /** A page, and the bytes before it that belong to none. */
  datatype Chunk = Chunk(gap: seq<byte>, page: Page)

  /** No capture pattern starts in the gap, not even one that runs into the next page. */
  ghost predicate Clean(gap: seq<byte>) {
    forall i :: 0 <= i < |gap| ==> !MagicAt(gap + MAGIC, i)
  }

  ghost predicate AllWritable(chunks: seq<Chunk>) {
    forall i :: 0 <= i < |chunks| ==> Clean(chunks[i].gap) && Writable(chunks[i].page)
  }

  function File(chunks: seq<Chunk>): seq<byte> {
    if chunks == [] then [] else chunks[0].gap + Bytes(chunks[0].page) + File(chunks[1..])
  }

  lemma MagicAfter(h: seq<byte>, s: seq<byte>, i: nat)
    ensures MagicAt(h + s, |h| + i) == MagicAt(s, i)
  {
    if i + 4 <= |s| {
      assert (h + s)[|h| + i..|h| + i + 4] == s[i..i + 4];
    }
  }

  lemma {:induction false} FindAfter(h: seq<byte>, s: seq<byte>, from: nat)
    ensures var r := FindMagic(s, from);
      FindMagic(h + s, |h| + from) == if r.None? then None else Some(|h| + r.value)
    decreases |s| - from
  {
    MagicAfter(h, s, from);
    if from < |s| && !MagicAt(s, from) {
      FindAfter(h, s, from + 1);
    }
  }

  lemma PageAfter(h: seq<byte>, s: seq<byte>, i: nat)
    ensures var r := PageAt(s, i);
      PageAt(h + s, |h| + i) == if r.None? then None else Some(r.value.(end := |h| + r.value.end))
  {
    hide Sum, FromLittleEndian;
    if i + 27 <= |s| {
      var n := s[i + 26] as int;
      assert (h + s)[|h| + i + 26] == s[i + 26];
      if i + 27 + n <= |s| {
        SliceAfter(h, s, i + 27, i + 27 + n);
        SliceAfter(h, s, i + 6, i + 14);
        var end := i + 27 + n + Sum(s[i + 27..i + 27 + n]);
        if end <= |s| {
          SliceAfter(h, s, i + 27 + n, end);
        }
      }
    }
  }

  lemma SliceAfter(h: seq<byte>, s: seq<byte>, i: nat, j: nat)
    requires i <= j <= |s|
    ensures (h + s)[|h| + i..|h| + j] == s[i..j]
  {
  }

  /** Bytes before the cursor do not matter. */
  lemma {:induction false} WalkAfter(h: seq<byte>, s: seq<byte>, i: nat, k: Known)
    ensures Walk(h + s, |h| + i, k) == Walk(s, i, k)
    decreases |s| - i
  {
    hide PageAt, SeePage, MagicAt, FindMagic;
    MagicAfter(h, s, i);
    FindAfter(h, s, i + 1);
    PageAfter(h, s, i);
    if i + 27 <= |s| {
      if !MagicAt(s, i) {
        var next := FindMagic(s, i + 1);
        if next.Some? {
          WalkAfter(h, s, next.value, k);
        }
      } else {
        var page := PageAt(s, i);
        if page.Some? {
          WalkAfter(h, s, page.value.end, SeePage(k, page.value));
          SamePage(k, page.value, |h| + page.value.end);
        }
      }
    }
  }

  lemma SamePage(k: Known, page: Raw, end: nat)
    requires |page.payload| == Sum(page.table)
    ensures SeePage(k, page.(end := end)) == SeePage(k, page)
  {
  }

  /** The first pattern after a clean gap is the page's. */
  lemma GapHasNone(gap: seq<byte>, rest: seq<byte>, i: nat)
    requires Clean(gap) && i < |gap| && rest[..if |rest| < 4 then |rest| else 4] <= MAGIC
    ensures !MagicAt(gap + rest, i)
  {
    var data := gap + rest;
    if i + 4 <= |data| {
      assert data[i..i + 4] == (gap + MAGIC)[i..i + 4];
      assert !MagicAt(gap + MAGIC, i);
    }
  }

  lemma {:induction false} FindSkips(data: seq<byte>, from: nat, end: nat)
    requires from <= end <= |data| && forall i :: from <= i < end ==> !MagicAt(data, i)
    ensures FindMagic(data, from) == FindMagic(data, end)
    decreases end - from
  {
    if from < end {
      FindSkips(data, from + 1, end);
    }
  }

  lemma WalkGap(gap: seq<byte>, rest: seq<byte>, k: Known)
    requires Clean(gap) && |rest| >= 27 && rest[..4] == MAGIC
    ensures Walk(gap + rest, 0, k) == Walk(rest, 0, k)
  {
    hide PageAt, SeePage, FindMagic, MagicAt;
    var data := gap + rest;
    WalkAfter(gap, rest, 0, k);
    if gap != [] {
      forall i | 0 <= i < |gap|
        ensures !MagicAt(data, i)
      {
        GapHasNone(gap, rest, i);
      }
      FindSkips(data, 1, |gap|);
      FoundHere(gap, rest);
    }
  }

  lemma FoundHere(gap: seq<byte>, rest: seq<byte>)
    requires |rest| >= 4 && rest[..4] == MAGIC
    ensures MagicAt(gap + rest, |gap|) && FindMagic(gap + rest, |gap|) == Some(|gap|)
  {
    assert (gap + rest)[|gap|..|gap| + 4] == rest[..4];
  }

  /** A gap and a page: the walk goes on behind them, knowing what the page says. */
  lemma WalkChunk(c: Chunk, rest: seq<byte>, k: Known)
    requires Clean(c.gap) && Writable(c.page)
    ensures Walk(c.gap + Bytes(c.page) + rest, 0, k)
         == Walk(rest, 0, SeePackets(SeeGranule(k, c.page.granule), c.page.packets))
  {
    hide PageAt, FindMagic, MagicAt, Head, Table, Payload, Split, SeePackets, Writable;
    var p := c.page;
    var whole := Bytes(p) + rest;
    LongEnough(p);
    PageIsRead(p, rest);
    SizesAgree(p);
    assert c.gap + Bytes(p) + rest == c.gap + whole;
    assert whole[..4] == Bytes(p)[..4];
    WalkGap(c.gap, whole, k);
    WalkAfter(Bytes(p), rest, 0, SeePackets(SeeGranule(k, p.granule), p.packets));
  }

  lemma LongEnough(p: Page)
    requires Writable(p)
    ensures |Bytes(p)| >= 27 && Bytes(p)[..4] == MAGIC
  {
    HeadFields(p);
    assert Bytes(p)[..4] == Head(p)[..4];
  }

  /** Only a gap and the beginning of a page are left: the walk learns nothing more. */
  lemma WalkCutPage(gap: seq<byte>, p: Page, n: nat, k: Known)
    requires Clean(gap) && Writable(p) && n < |Bytes(p)|
    ensures Walk(gap + Bytes(p)[..n], 0, k) == k
  {
    hide PageAt, FindMagic, MagicAt, Head, Table, Payload, SeePage, Writable;
    var rest := Bytes(p)[..n];
    var data := gap + rest;
    LongEnough(p);
    CutPageIsNotRead(p, n);
    WalkAfter(gap, rest, 0, k);
    if gap != [] && |data| >= 27 {
      assert rest[..if n < 4 then n else 4] == MAGIC[..if n < 4 then n else 4];
      forall i | 0 <= i < |gap|
        ensures !MagicAt(data, i)
      {
        GapHasNone(gap, rest, i);
      }
      FindSkips(data, 1, |gap|);
      if n >= 4 {
        FoundHere(gap, rest);
      } else {
        TooShort(data, |gap|);
      }
    }
  }

  lemma {:induction false} TooShort(data: seq<byte>, from: nat)
    requires from + 4 > |data|
    ensures FindMagic(data, from) == None
    decreases |data| - from
  {
    if from < |data| {
      TooShort(data, from + 1);
    }
  }

  // ── the duration ───────────────────────────────────────────────────────────

  function SeeChunks(k: Known, chunks: seq<Chunk>): Known
    decreases |chunks|
  {
    if chunks == [] then k
    else SeeChunks(SeePackets(SeeGranule(k, chunks[0].page.granule), chunks[0].page.packets), chunks[1..])
  }

  lemma {:induction false} WalkFile(chunks: seq<Chunk>, gap: seq<byte>, p: Page, n: nat, k: Known)
    requires AllWritable(chunks) && Clean(gap) && Writable(p) && n < |Bytes(p)|
    ensures Walk(File(chunks) + (gap + Bytes(p)[..n]), 0, k) == SeeChunks(k, chunks)
    decreases |chunks|
  {
    hide Walk, Bytes, SeePackets, Clean, Writable, SeeGranule;
    var tail := gap + Bytes(p)[..n];
    if chunks == [] {
      WalkCutPage(gap, p, n, k);
      assert [] + tail == tail;
    } else {
      var c, rest := chunks[0], chunks[1..];
      WalkChunk(c, File(rest) + tail, k);
      WalkFile(rest, gap, p, n, SeePackets(SeeGranule(k, c.page.granule), c.page.packets));
      assert File(chunks) + tail == c.gap + Bytes(c.page) + (File(rest) + tail);
    }
  }

  /** Every packet that ends on a page, in file order. */
  function Packets(chunks: seq<Chunk>): seq<seq<byte>> {
    if chunks == [] then [] else chunks[0].page.packets + Packets(chunks[1..])
  }

  /** The pre-skip of the first identification header (section 5.1 of RFC 7845). */
  function PreSkip(packets: seq<seq<byte>>): Option<nat> {
    if packets == [] then None
    else if IsHead(packets[0]) then Some(packets[0][10] as nat + 256 * packets[0][11] as nat)
    else PreSkip(packets[1..])
  }

  function LastGranule(chunks: seq<Chunk>): Option<nat> {
    if chunks == [] then None
    else if chunks[|chunks| - 1].page.granule != 0 then Some(chunks[|chunks| - 1].page.granule)
    else LastGranule(chunks[..|chunks| - 1])
  }

  /** The duration the pages stand for. */
  function Playing(chunks: seq<Chunk>): real {
    var skip, last := PreSkip(Packets(chunks)), LastGranule(chunks);
    if skip.None? || last.None? then 0.0
    else Max(0, last.value - skip.value) as real / 48.0
  }

  lemma {:induction false} FirstHeadWins(k: Known, packets: seq<seq<byte>>)
    ensures SeePackets(k, packets)
         == if k.head || PreSkip(packets).None? then k else k.(preSkip := PreSkip(packets).value, head := true)
    decreases |packets|
  {
    if packets != [] {
      FirstHeadWins(SeePacket(k, packets[0]), packets[1..]);
      if IsHead(packets[0]) {
        TwoBytes(packets[0][10..12]);
      }
    }
  }

  lemma TwoBytes(s: seq<byte>)
    requires |s| == 2
    ensures FromLittleEndian(s) == s[0] as nat + 256 * s[1] as nat
  {
    var t: seq<byte> := s[1..];
    assert t[0] == s[1] && t[1..] == [];
    assert FromLittleEndian(t) == t[0] as nat + 256 * FromLittleEndian(t[1..]);
  }

  lemma {:induction false} PreSkipJoins(a: seq<seq<byte>>, b: seq<seq<byte>>)
    ensures PreSkip(a + b) == if PreSkip(a).Some? then PreSkip(a) else PreSkip(b)
    decreases |a|
  {
    hide IsHead;
    if a == [] {
      assert a + b == b;
    } else {
      PreSkipJoins(a[1..], b);
      assert (a + b)[1..] == a[1..] + b;
    }
  }

  lemma {:induction false} LastOfTail(chunks: seq<Chunk>)
    requires chunks != []
    ensures LastGranule(chunks) ==
      if LastGranule(chunks[1..]).Some? then LastGranule(chunks[1..])
      else if chunks[0].page.granule != 0 then Some(chunks[0].page.granule) else None
    decreases |chunks|
  {
    var n := |chunks| - 1;
    if n > 0 {
      LastOfTail(chunks[..n]);
      assert chunks[..n][1..] == chunks[1..][..n - 1];
    }
  }

  /** Page by page the walk keeps the first head and the last non-zero granule position. */
  lemma {:induction false} SeesFirstHeadLastGranule(k: Known, chunks: seq<Chunk>)
    ensures var r, skip := SeeChunks(k, chunks), PreSkip(Packets(chunks));
      && r.head == (k.head || skip.Some?)
      && r.preSkip == (if !k.head && skip.Some? then skip.value else k.preSkip)
      && r.granule == (if LastGranule(chunks).Some? then LastGranule(chunks) else k.granule)
    decreases |chunks|
  {
    hide PreSkip, LastGranule, SeePackets;
    if chunks == [] {
      NoChunks();
    } else {
      var c, rest := chunks[0].page, chunks[1..];
      FirstHeadWins(SeeGranule(k, c.granule), c.packets);
      SeesFirstHeadLastGranule(SeePackets(SeeGranule(k, c.granule), c.packets), rest);
      PreSkipJoins(c.packets, Packets(rest));
      LastOfTail(chunks);
    }
  }

  lemma NoChunks()
    ensures PreSkip([]) == None && LastGranule([]) == None
  {
  }

  /** For every list of pages, whatever clean bytes lie between them, and even when the last page is cut
      short: the duration is that of the pages. */
  lemma ParsesPages(chunks: seq<Chunk>, gap: seq<byte>, cut: Page, n: nat)
    requires AllWritable(chunks) && Clean(gap) && Writable(cut) && n < |Bytes(cut)|
    ensures Parse(File(chunks) + (gap + Bytes(cut)[..n])) == Playing(chunks)
  {
    hide Walk, Bytes, SeeChunks, PreSkip, LastGranule, Packets, Clean, Writable;
    WalkFile(chunks, gap, cut, n, NOTHING);
    SeesFirstHeadLastGranule(NOTHING, chunks);
  }

  // ── pages on which no packet ends ──────────────────────────────────────────

  /** The granule position -1 of a page on which no packet ends, read as an unsigned number. */
  function NoPosition(): nat {
    Power(8) - 1
  }

  /** The last granule position that is one: neither zero nor -1. */
  function LastPosition(chunks: seq<Chunk>): (r: Option<nat>)
    ensures r.Some? ==> r.value != 0 && r.value != NoPosition()
  {
    if chunks == [] then None
    else
      var granule := chunks[|chunks| - 1].page.granule;
      if granule != 0 && granule != NoPosition() then Some(granule) else LastPosition(chunks[..|chunks| - 1])
  }

  /** The duration by the format (section 6 of RFC 3533, section 4 of RFC 7845). */
  function PlayingByFormat(chunks: seq<Chunk>): real {
    var skip, last := PreSkip(Packets(chunks)), LastPosition(chunks);
    if skip.None? || last.None? then 0.0
    else Max(0, last.value - skip.value) as real / 48.0
  }

  ghost predicate InRange(chunks: seq<Chunk>) {
    forall i :: 0 <= i < |chunks| ==> chunks[i].page.granule < Power(8)
  }

  lemma {:induction false} PositionsDiffer(chunks: seq<Chunk>)
    requires InRange(chunks)
    ensures LastGranule(chunks) != Some(NoPosition()) ==> LastPosition(chunks) == LastGranule(chunks)
    ensures LastPosition(chunks).Some? ==> LastPosition(chunks).value < NoPosition()
    decreases |chunks|
  {
    hide Power;
    if chunks != [] {
      PositionsDiffer(chunks[..|chunks| - 1]);
    }
  }

  lemma {:induction false} PreSkipIsShort(packets: seq<seq<byte>>)
    ensures PreSkip(packets).Some? ==> PreSkip(packets).value < 65536
    decreases |packets|
  {
    if packets != [] {
      PreSkipIsShort(packets[1..]);
    }
  }

  lemma NoPositionIsLarge()
    ensures NoPosition() == 0xFFFF_FFFF_FFFF_FFFF
  {
    assert Power(4) == 0x1_0000_0000;
    assert Power(8) == 256 * (256 * (256 * (256 * Power(4))));
  }

  /** The walk's duration is the format's exactly when there is no identification header at all, or the last
      page with a non-zero granule position does not have the position -1. */
  lemma RightExactlyWhen(chunks: seq<Chunk>)
    requires AllWritable(chunks)
    ensures Playing(chunks) == PlayingByFormat(chunks)
      <==> PreSkip(Packets(chunks)).None? || LastGranule(chunks) != Some(NoPosition())
  {
    hide Power, PreSkip, LastGranule, LastPosition, Packets, NoPosition, Clean;
    assert InRange(chunks);
    PositionsDiffer(chunks);
    PreSkipIsShort(Packets(chunks));
    NoPositionIsLarge();
  }

  /** An identification header with pre-skip 312, a page that ends after one second, and a page on which the
      next packet does not end. */
  function UnfinishedFile(): seq<Chunk> {
    var ids := seq(12, _ => 0 as byte);
    [Chunk([], Page(0, 2, 0, ids, [OPUS_HEAD + [1, 1, 56, 1]], [])),
     Chunk([], Page(0, 0, 48312, ids, [[]], [])),
     Chunk([], Page(0, 0, NoPosition(), ids, [], seq(255, _ => 0 as byte)))]
  }

  lemma UnfinishedIsWritable(chunks: seq<Chunk>)
    requires chunks == UnfinishedFile()
    ensures AllWritable(chunks)
  {
    NoPositionIsLarge();
    forall i | 0 <= i < |chunks|
      ensures Clean(chunks[i].gap) && Writable(chunks[i].page)
    {
      var p := chunks[i].page;
      assert |Laces(p.packets)| <= 1 && |FullSegments(|p.open|)| <= 1;
    }
  }

  lemma UnfinishedPreSkip(chunks: seq<Chunk>)
    requires chunks == UnfinishedFile()
    ensures PreSkip(Packets(chunks)) == Some(312)
  {
    var head := OPUS_HEAD + [1, 1, 56, 1];
    assert head[..8] == OPUS_HEAD;
    assert Packets(chunks)[0] == head;
  }

  lemma UnfinishedPositions(chunks: seq<Chunk>)
    requires chunks == UnfinishedFile()
    ensures LastGranule(chunks) == Some(NoPosition()) && LastPosition(chunks) == Some(48312)
  {
    hide Power, NoPosition;
    NoPositionIsLarge();
    assert chunks[..2][1] == chunks[1];
  }

  /** Its bytes are one second of sound by the format; the walk makes more than ten million years of them. */
  lemma MisreadsUnfinishedFile(chunks: seq<Chunk>)
    requires chunks == UnfinishedFile()
    ensures AllWritable(chunks) && PlayingByFormat(chunks) == 1000.0
    ensures Parse(File(chunks)) == (0xFFFF_FFFF_FFFF_FFFF - 312) as real / 48.0
  {
    hide Power, PreSkip, LastGranule, LastPosition, Packets, NoPosition, File, Parse, Table, Head, Bytes;
    UnfinishedIsWritable(chunks);
    UnfinishedPreSkip(chunks);
    UnfinishedPositions(chunks);
    NoPositionIsLarge();
    var page := chunks[0].page;
    LongEnough(page);
    assert File(chunks) + ([] + Bytes(page)[..0]) == File(chunks);
    ParsesPages(chunks, [], page, 0);
  }
}
