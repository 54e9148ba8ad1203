/** The duration of an Opus stream, found by walking the pages of its Ogg container
    (section 6 of RFC 3533) without decoding them. */
module OggScan {

  import opened Basics

  const MAGIC: seq<Byte> := [0x4F, 0x67, 0x67, 0x53]   // "OggS"
  const HEADER := 27
  const TWO_63 := 0x8000_0000_0000_0000
  const TWO_64 := 0x1_0000_0000_0000_0000
  const SAMPLE_RATE := 48000.0                          // section 4 of RFC 7845

  function FromLittleEndian(s: seq<Byte>): nat {
    if s == [] then 0 else s[0] + 256 * FromLittleEndian(s[1..])
  }

  function Signed(u: nat): int {
    if u >= TWO_63 then u - TWO_64 else u
  }

  function Max(a: int, b: int): int { if b > a then b else a }

  function Sum(table: seq<Byte>): nat {
    if table == [] then 0 else Sum(table[..|table| - 1]) + table[|table| - 1]
  }

  predicate MagicAt(data: seq<Byte>, pos: nat) {
    pos + 4 <= |data| && data[pos..pos + 4] == MAGIC
  }

  function GranuleAt(data: seq<Byte>, pos: nat): int
    requires pos + HEADER <= |data|
  {
    Signed(FromLittleEndian(data[pos + 6..pos + 14]))
  }

  /** What scanning from `pos` on makes of the greatest position so far. */
  function Scan(data: seq<Byte>, pos: nat, best: int): int
    decreases |data| - pos
  {
    if pos + HEADER > |data| then best
    else if !MagicAt(data, pos) then Scan(data, pos + 1, best)
    else
      var best', table := Max(best, GranuleAt(data, pos)), pos + HEADER;
      var n := data[pos + 26];
      if table + n > |data| then best'
      else Scan(data, table + n + Sum(data[table..table + n]), best')
  }

  method TableSize(table: seq<Byte>) returns (pageSize: nat)
    ensures pageSize == Sum(table)
  {
    pageSize := 0;
    for i := 0 to |table|
      invariant pageSize == Sum(table[..i])
    {
      assert table[..i + 1][..i] == table[..i];
      pageSize := pageSize + table[i];
    }
    assert table[..|table|] == table;
  }

  lemma SubSlice(data: seq<Byte>, pos: nat, len: nat, from: nat, to: nat)
    requires pos + len <= |data| && from <= to <= len
    ensures data[pos..pos + len][from..to] == data[pos + from..pos + to]
  {
    var part, whole := data[pos..pos + len][from..to], data[pos + from..pos + to];
    assert |part| == |whole| && forall i :: 0 <= i < |whole| ==> part[i] == whole[i];
  }

  /** The fields of a header read into a buffer of its own. */
  lemma BufferFields(data: seq<Byte>, pos: nat)
    requires pos + HEADER <= |data|
    ensures
      var buf := data[pos..pos + HEADER];
      && (MagicAt(data, pos) <==> buf[0..4] == MAGIC)
      && GranuleAt(data, pos) == Signed(FromLittleEndian(buf[6..14]))
      && buf[26] == data[pos + 26]
  {
    SubSlice(data, pos, HEADER, 0, 4);
    SubSlice(data, pos, HEADER, 6, 14);
  }

  /** One turn of the scan: a header, or one byte of noise. `more` is false at the end. */
  method ScanOnce(data: seq<Byte>, start: nat, best: int) returns (pos: nat, granule: int, more: bool)
    ensures Scan(data, start, best) == if more then Scan(data, pos, granule) else granule
    ensures more ==> start < pos && start < |data|
  {
    pos, granule, more := start, best, false;
    var n := if pos >= |data| then 0 else if |data| - pos < HEADER then |data| - pos else HEADER;
    if n < HEADER {
      return;
    }
    var buf := data[pos..pos + HEADER];
    BufferFields(data, pos);
    pos := pos + HEADER;
    if buf[0..4] != MAGIC {
      return pos - 26, granule, true;
    }
    var position := Signed(FromLittleEndian(buf[6..14]));
    if position > granule {
      granule := position;
    }
    var segments := buf[26];
    if pos + segments > |data| {
      return;
    }
    var table := data[pos..pos + segments];
    pos := pos + segments;
    var pageSize := TableSize(table);
    pos := pos + pageSize;
    more := true;
  }

  method GetOpusDuration(data: seq<Byte>) returns (granule: int, duration: real)
    ensures granule == Scan(data, 0, 0)
    ensures duration == granule as real / SAMPLE_RATE
  {
    granule := 0;
    var pos: nat, more := 0, true;
    while more
      invariant Scan(data, 0, 0) == if more then Scan(data, pos, granule) else granule
      decreases more, |data| - pos
    {
      pos, granule, more := ScanOnce(data, pos, granule);
    }
    duration := granule as real / SAMPLE_RATE;
  }

  // ---- Well-formed pages ----

  /** `flags` is version and header type; `serials` is serial number, sequence number and
      checksum. */
  datatype Page = Page(flags: seq<Byte>, granule: int, serials: seq<Byte>, table: seq<Byte>, body: seq<Byte>)

  ghost predicate WellFormed(p: Page) {
    && |p.flags| == 2 && |p.serials| == 12
    && -TWO_63 <= p.granule < TWO_63
    && |p.table| < 256
    && |p.body| == Sum(p.table)
  }

  function ToLittleEndian(n: nat, k: nat): (s: seq<Byte>)
    ensures |s| == k
  {
    if k == 0 then [] else [n % 256] + ToLittleEndian(n / 256, k - 1)
  }

  function Power(k: nat): nat { if k == 0 then 1 else 256 * Power(k - 1) }

  lemma {:induction false} LittleEndianRoundTrip(n: nat, k: nat)
    requires n < Power(k)
    ensures FromLittleEndian(ToLittleEndian(n, k)) == n
  {
    if k > 0 {
      assert n / 256 < Power(k - 1);
      LittleEndianRoundTrip(n / 256, k - 1);
      var s := ToLittleEndian(n, k);
      assert s[1..] == ToLittleEndian(n / 256, k - 1);
    }
  }

  function Unsigned(granule: int): nat
    requires -TWO_63 <= granule < TWO_63
  {
    if granule < 0 then granule + TWO_64 else granule
  }

  lemma GranuleRoundTrip(granule: int)
    requires -TWO_63 <= granule < TWO_63
    ensures Signed(FromLittleEndian(ToLittleEndian(Unsigned(granule), 8))) == granule
  {
    assert Power(8) == TWO_64 by {
      assert Power(4) == 256 * (256 * (256 * 256));
      assert Power(8) == 256 * (256 * (256 * (256 * Power(4))));
    }
    LittleEndianRoundTrip(Unsigned(granule), 8);
  }

  ghost function Header(p: Page): (h: seq<Byte>)
    requires WellFormed(p)
    ensures |h| == HEADER
  {
    MAGIC + p.flags + ToLittleEndian(Unsigned(p.granule), 8) + p.serials + [|p.table|]
  }

  ghost function Encode(p: Page): (bytes: seq<Byte>)
    requires WellFormed(p)
    ensures |bytes| == HEADER + |p.table| + |p.body|
  {
    Header(p) + p.table + p.body
  }

  ghost predicate AllWellFormed(pages: seq<Page>) {
    forall i :: 0 <= i < |pages| ==> WellFormed(pages[i])
  }

  ghost function EncodeAll(pages: seq<Page>): seq<Byte>
    requires AllWellFormed(pages)
  {
    if pages == [] then [] else Encode(pages[0]) + EncodeAll(pages[1..])
  }

  /** The greatest of `best` and all granule positions. */
  function Greatest(pages: seq<Page>, best: int): int {
    if pages == [] then best else Greatest(pages[1..], Max(best, pages[0].granule))
  }

  lemma HeaderFields(p: Page)
    requires WellFormed(p)
    ensures Header(p)[0..4] == MAGIC
    ensures Signed(FromLittleEndian(Header(p)[6..14])) == p.granule
    ensures Header(p)[26] == |p.table|
  {
    GranuleRoundTrip(p.granule);
    assert Header(p)[6..14] == ToLittleEndian(Unsigned(p.granule), 8);
  }

  /** `bytes` stand in `data` at `pos`. */
  predicate At(data: seq<Byte>, pos: nat, bytes: seq<Byte>) {
    pos + |bytes| <= |data| && forall i :: 0 <= i < |bytes| ==> bytes[i] == data[pos + i]
  }

  lemma AtConcat(data: seq<Byte>, pos: nat, a: seq<Byte>, b: seq<Byte>)
    requires At(data, pos, a + b)
    ensures At(data, pos, a) && At(data, pos + |a|, b)
  {
    var both := a + b;
    assert forall i :: 0 <= i < |a| ==> both[i] == a[i];
    assert forall i :: 0 <= i < |b| ==> both[|a| + i] == b[i];
  }

  lemma AtSlice(data: seq<Byte>, pos: nat, bytes: seq<Byte>)
    ensures At(data, pos, bytes) <==> pos + |bytes| <= |data| && data[pos..pos + |bytes|] == bytes
  {
    if pos + |bytes| <= |data| {
      var slice := data[pos..pos + |bytes|];
      assert forall i :: 0 <= i < |bytes| ==> slice[i] == data[pos + i];
    }
  }

  /** The fields of a page met at its start. */
  lemma PageFields(data: seq<Byte>, pos: nat, p: Page)
    requires WellFormed(p) && At(data, pos, Encode(p))
    ensures pos + HEADER + |p.table| <= |data| && MagicAt(data, pos)
    ensures GranuleAt(data, pos) == p.granule && data[pos + 26] == |p.table|
    ensures data[pos + HEADER..pos + HEADER + |p.table|] == p.table
  {
    AtConcat(data, pos, Header(p) + p.table, p.body);
    AtConcat(data, pos, Header(p), p.table);
    AtSlice(data, pos, Header(p));
    AtSlice(data, pos + HEADER, p.table);
    HeaderFields(p);
    BufferFields(data, pos);
  }

  /** A page met at its start is consumed whole, whatever its body contains. */
  lemma ScanPage(data: seq<Byte>, pos: nat, p: Page, best: int)
    requires WellFormed(p) && At(data, pos, Encode(p))
    ensures Scan(data, pos, best) == Scan(data, pos + |Encode(p)|, Max(best, p.granule))
  {
    PageFields(data, pos, p);
  }

  lemma NextPageAt(data: seq<Byte>, pos: nat, pages: seq<Page>)
    requires pages != [] && AllWellFormed(pages) && At(data, pos, EncodeAll(pages))
    ensures AllWellFormed(pages[1..]) && At(data, pos, Encode(pages[0]))
    ensures At(data, pos + |Encode(pages[0])|, EncodeAll(pages[1..]))
    ensures |EncodeAll(pages)| == |Encode(pages[0])| + |EncodeAll(pages[1..])|
  {
    AtConcat(data, pos, Encode(pages[0]), EncodeAll(pages[1..]));
  }

  /** Page by page, down to fewer bytes than a header. */
  lemma {:induction false} ScanPages(data: seq<Byte>, pos: nat, pages: seq<Page>, best: int)
    requires AllWellFormed(pages) && At(data, pos, EncodeAll(pages))
    requires |data| - pos - |EncodeAll(pages)| < HEADER
    ensures Scan(data, pos, best) == Greatest(pages, best)
    decreases |pages|
  {
    if pages == [] {
      assert EncodeAll(pages) == [];
    } else {
      var next, best' := pos + |Encode(pages[0])|, Max(best, pages[0].granule);
      NextPageAt(data, pos, pages);
      ScanPages(data, next, pages[1..], best');
      assert Scan(data, pos, best) == Scan(data, next, best') by {
        ScanPage(data, pos, pages[0], best);
      }
    }
  }

  /** No capture pattern starts at a position from `from` up to `to`. */
  ghost predicate Quiet(data: seq<Byte>, from: nat, to: int) {
    forall i: nat :: from <= i < to ==> !MagicAt(data, i)
  }

  lemma {:induction false} ScanResynchronises(data: seq<Byte>, pos: nat, start: nat, best: int)
    requires pos <= start <= |data| && Quiet(data, pos, start)
    ensures Scan(data, pos, best) == Scan(data, start, best)
    decreases start - pos
  {
    if pos < start {
      assert !MagicAt(data, pos);
      ScanResynchronises(data, pos + 1, start, best);
    }
  }

  /** On noise without the capture pattern, then any well-formed pages, then fewer bytes
      than a header, the result is the greatest granule position, or 0 if all are negative.
      A pattern inside a page body is never taken for a header. */
  lemma ScanFindsGreatest(noise: seq<Byte>, pages: seq<Page>, tail: seq<Byte>)
    requires AllWellFormed(pages) && |tail| < HEADER
    requires Quiet(noise + EncodeAll(pages) + tail, 0, |noise|)
    ensures Scan(noise + EncodeAll(pages) + tail, 0, 0) == Greatest(pages, 0)
  {
    var data := noise + EncodeAll(pages) + tail;
    ScanResynchronises(data, 0, |noise|, 0);
    AtSlice(data, |noise|, EncodeAll(pages));
    ScanPages(data, |noise|, pages, 0);
  }

  // ---- Noise between pages ----

  datatype Segment = Segment(noise: seq<Byte>, page: Page)

  ghost predicate WellFormedSegments(segments: seq<Segment>) {
    forall i :: 0 <= i < |segments| ==> WellFormed(segments[i].page)
  }

  ghost function EncodeSegments(segments: seq<Segment>): seq<Byte>
    requires WellFormedSegments(segments)
  {
    if segments == [] then []
    else segments[0].noise + (Encode(segments[0].page) + EncodeSegments(segments[1..]))
  }

  function PagesOf(segments: seq<Segment>): seq<Page> {
    if segments == [] then [] else [segments[0].page] + PagesOf(segments[1..])
  }

  /** With the segments laid out from `pos` on, no capture pattern starts in any noise, nor
      after the last page where a header could still fit. */
  ghost predicate QuietAround(data: seq<Byte>, pos: nat, segments: seq<Segment>)
    requires WellFormedSegments(segments)
    decreases |segments|
  {
    if segments == [] then Quiet(data, pos, |data| - HEADER + 1)
    else
      var page := pos + |segments[0].noise|;
      Quiet(data, pos, page) && QuietAround(data, page + |Encode(segments[0].page)|, segments[1..])
  }

  lemma {:induction false} ScanQuietEnd(data: seq<Byte>, pos: nat, best: int)
    requires Quiet(data, pos, |data| - HEADER + 1)
    ensures Scan(data, pos, best) == best
    decreases |data| - pos
  {
    if pos + HEADER <= |data| {
      assert !MagicAt(data, pos);
      ScanQuietEnd(data, pos + 1, best);
    }
  }

  lemma NextSegmentAt(data: seq<Byte>, pos: nat, segments: seq<Segment>)
    requires segments != [] && WellFormedSegments(segments) && At(data, pos, EncodeSegments(segments))
    ensures
      var page := pos + |segments[0].noise|;
      && page <= |data| && At(data, page, Encode(segments[0].page)) && WellFormedSegments(segments[1..])
      && At(data, page + |Encode(segments[0].page)|, EncodeSegments(segments[1..]))
  {
    var first, rest := segments[0], EncodeSegments(segments[1..]);
    AtConcat(data, pos, first.noise, Encode(first.page) + rest);
    AtConcat(data, pos + |first.noise|, Encode(first.page), rest);
  }

  lemma ScanSegment(data: seq<Byte>, pos: nat, page: nat, p: Page, best: int)
    requires pos <= page <= |data| && Quiet(data, pos, page) && WellFormed(p) && At(data, page, Encode(p))
    ensures Scan(data, pos, best) == Scan(data, page + |Encode(p)|, Max(best, p.granule))
  {
    ScanResynchronises(data, pos, page, best);
    ScanPage(data, page, p, best);
  }

  lemma GreatestNext(segments: seq<Segment>, best: int)
    requires segments != []
    ensures Greatest(PagesOf(segments), best) == Greatest(PagesOf(segments[1..]), Max(best, segments[0].page.granule))
  {
    assert PagesOf(segments)[1..] == PagesOf(segments[1..]);
  }

  lemma {:induction false} ScanSegments(data: seq<Byte>, pos: nat, segments: seq<Segment>, best: int)
    requires WellFormedSegments(segments) && At(data, pos, EncodeSegments(segments)) && QuietAround(data, pos, segments)
    ensures Scan(data, pos, best) == Greatest(PagesOf(segments), best)
    decreases |segments|
  {
    if segments == [] {
      ScanQuietEnd(data, pos, best);
    } else {
      var p := segments[0].page;
      var page := pos + |segments[0].noise|;
      NextSegmentAt(data, pos, segments);
      ScanSegment(data, pos, page, p, best);
      ScanSegments(data, page + |Encode(p)|, segments[1..], Max(best, p.granule));
      GreatestNext(segments, best);
    }
  }

  /** The scan finds its way back after every stretch of noise: with quiet noise before,
      between and after any well-formed pages, the result is the greatest granule position,
      or 0 if all are negative. */
  lemma ScanSkipsNoise(segments: seq<Segment>, tail: seq<Byte>)
    requires WellFormedSegments(segments) && QuietAround(EncodeSegments(segments) + tail, 0, segments)
    ensures Scan(EncodeSegments(segments) + tail, 0, 0) == Greatest(PagesOf(segments), 0)
  {
    ScanSegments(EncodeSegments(segments) + tail, 0, segments, 0);
  }

  lemma {:induction false} GreatestIsGreatest(pages: seq<Page>, best: int)
    ensures Greatest(pages, best) >= best
    ensures forall i :: 0 <= i < |pages| ==> pages[i].granule <= Greatest(pages, best)
    ensures Greatest(pages, best) == best || exists i :: 0 <= i < |pages| && pages[i].granule == Greatest(pages, best)
  {
    if pages != [] {
      var rest := pages[1..];
      GreatestIsGreatest(rest, Max(best, pages[0].granule));
      forall i | 0 <= i < |pages|
        ensures pages[i].granule <= Greatest(pages, best)
      {
        assert i > 0 ==> pages[i] == rest[i - 1];
      }
      if i :| 0 <= i < |rest| && rest[i].granule == Greatest(pages, best) {
        assert pages[i + 1].granule == Greatest(pages, best);
      } else {
        assert Greatest(pages, best) == best || pages[0].granule == Greatest(pages, best);
      }
    }
  }
}
