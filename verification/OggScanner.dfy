/**
 The Ogg page scanner behind `getOpusDuration` (common/audio.go).

 The scanner reads 27-byte page headers, remembers the largest granule position, and seeks
 over the segment table and the payload; on a header that does not start with "OggS" it
 steps back so as to advance by one byte.  Page layout: section 6 of RFC 3533.
 */
module OggScanner {

  newtype byte = b: int | 0 <= b < 256

  const HEADER_SIZE := 27

  // ----- fields on the wire -----

  const TWO_63 := 0x8000_0000_0000_0000
  const TWO_64 := 0x1_0000_0000_0000_0000

  function LittleEndian(data: seq<byte>, at: nat, width: nat): nat
    requires at + width <= |data|
    decreases |data| - at
  {
    if width == 0 then 0 else data[at] as nat + 256 * LittleEndian(data, at + 1, width - 1)
  }

  /** `int64(binary.LittleEndian.Uint64(...))`: the conversion wraps. */
  function Signed64(u: nat): int {
    if u >= TWO_63 then u - TWO_64 else u
  }

  function Sum(data: seq<byte>, lo: nat, hi: nat): nat
    requires lo <= hi <= |data|
    decreases hi - lo
  {
    if lo == hi then 0 else data[lo] as nat + Sum(data, lo + 1, hi)
  }

  predicate CaptureAt(data: seq<byte>, pos: nat) {
    pos + 4 <= |data| && data[pos] == 0x4F && data[pos + 1] == 0x67 && data[pos + 2] == 0x67 && data[pos + 3] == 0x53
  }

  function GranuleAt(data: seq<byte>, pos: nat): int
    requires pos + HEADER_SIZE <= |data|
  {
    Signed64(LittleEndian(data, pos + 6, 8))
  }

  // ----- what the scanner looks at -----

  /** One header read by the scanner: a page, or a byte skipped while looking for one. */
  datatype Visit = Page(at: nat, granule: int) | Resync(at: nat)

  function VisitAt(data: seq<byte>, pos: nat): Visit
    requires pos + HEADER_SIZE <= |data|
  {
    if CaptureAt(data, pos) then Page(pos, GranuleAt(data, pos)) else Resync(pos)
  }

  /** Where the scanner continues; at the end of the data when the segment table is cut off. */
  function Next(data: seq<byte>, pos: nat): (next: nat)
    requires pos + HEADER_SIZE <= |data|
    ensures next == pos + 1 || next >= pos + HEADER_SIZE
  {
    if !CaptureAt(data, pos) then pos + 1
    else
      var table := pos + HEADER_SIZE;
      var payload := table + data[pos + 26] as nat;
      if payload > |data| then |data| else payload + Sum(data, table, payload)
  }

  /** The headers examined from `pos` on, in order. */
  function Visits(data: seq<byte>, pos: nat): seq<Visit>
    decreases |data| - pos
  {
    if pos + HEADER_SIZE > |data| then [] else [VisitAt(data, pos)] + Visits(data, Next(data, pos))
  }

  function Max(a: int, b: int): int {
    if a > b then a else b
  }

  /** The largest granule position seen, or 0. */
  function Highest(vs: seq<Visit>): (h: int)
    ensures 0 <= h
  {
    if vs == [] then 0
    else if vs[0].Page? then Max(vs[0].granule, Highest(vs[1..]))
    else Highest(vs[1..])
  }

  lemma {:induction false} HighestIsMaximum(vs: seq<Visit>)
    ensures forall i :: 0 <= i < |vs| && vs[i].Page? ==> vs[i].granule <= Highest(vs)
    ensures Highest(vs) == 0 || exists i :: 0 <= i < |vs| && vs[i].Page? && vs[i].granule == Highest(vs)
  {
    if vs != [] {
      HighestIsMaximum(vs[1..]);
      assert forall i :: 1 <= i < |vs| ==> vs[i] == vs[1..][i - 1];
      assert forall i :: 0 <= i < |vs[1..]| ==> vs[1..][i] == vs[i + 1];
    }
  }

  /** The result of scanning from `pos`, without the list of visits. */
  function BestFrom(data: seq<byte>, pos: nat): int
    decreases |data| - pos
  {
    if pos + HEADER_SIZE > |data| then 0
    else if CaptureAt(data, pos) then Max(GranuleAt(data, pos), BestFrom(data, Next(data, pos)))
    else BestFrom(data, pos + 1)
  }

  lemma {:induction false} BestIsHighest(data: seq<byte>, pos: nat)
    ensures BestFrom(data, pos) == Highest(Visits(data, pos))
    decreases |data| - pos
  {
    if pos + HEADER_SIZE <= |data| {
      var rest := Visits(data, Next(data, pos));
      BestIsHighest(data, Next(data, pos));
      assert ([VisitAt(data, pos)] + rest)[1..] == rest;
    }
  }

  /** The inner loop over the segment table. */
  method PageSize(data: seq<byte>, table: nat, segments: nat) returns (size: nat)
    requires table + segments <= |data|
    ensures size == Sum(data, table, table + segments)
  {
    size := 0;
    for i := table to table + segments
      invariant size + Sum(data, i, table + segments) == Sum(data, table, table + segments)
    {
      size := size + data[i] as nat;
    }
  }

  /**
   The loop of `getOpusDuration`.  It ends on every byte string, because `pos` moves by 1 or by
   at least 27, and returns the largest granule among the headers it visits.
   */
  method TotalGranules(data: seq<byte>) returns (total: int)
    ensures total == Highest(Visits(data, 0))
  {
    total := 0;
    var pos: nat := 0;
    while true
      invariant 0 <= total
      invariant Max(total, BestFrom(data, pos)) == Max(0, BestFrom(data, 0))
      decreases |data| - pos
    {
      if pos >= |data| { break; }                   // io.EOF
      if |data| - pos < HEADER_SIZE { break; }      // short read
      if !CaptureAt(data, pos) {
        pos := pos + HEADER_SIZE - 26;              // Seek(-26, io.SeekCurrent)
        continue;
      }
      var granule := GranuleAt(data, pos);
      if granule > total {
        total := granule;
      }
      var segments := data[pos + 26] as nat;
      pos := pos + HEADER_SIZE;
      if pos + segments > |data| { break; }         // io.ReadFull fails
      var size := PageSize(data, pos, segments);
      pos := pos + segments + size;
    }
    BestIsHighest(data, 0);
  }

  // ----- complete pages -----

  function ToLittleEndian(n: nat, width: nat): (bs: seq<byte>)
    ensures |bs| == width
  {
    if width == 0 then [] else [(n % 256) as byte] + ToLittleEndian(n / 256, width - 1)
  }

  function Wrap64(g: int): nat
    requires -TWO_63 <= g < TWO_63
  {
    if g < 0 then g + TWO_64 else g
  }

  ghost predicate Short(segments: seq<seq<byte>>) {
    forall s :: s in segments ==> |s| < 256
  }

  /** The segment table: the lengths of the segments. */
  function Lengths(segments: seq<seq<byte>>): (table: seq<byte>)
    requires Short(segments)
    ensures |table| == |segments|
  {
    if segments == [] then [] else [|segments[0]| as byte] + Lengths(segments[1..])
  }

  function Concat(segments: seq<seq<byte>>): seq<byte> {
    if segments == [] then [] else segments[0] + Concat(segments[1..])
  }

  /** A page as an encoder writes it; `rest` is serial number, sequence number and checksum. */
  datatype OggPage = OggPage(version: byte, flags: byte, granule: int, rest: seq<byte>, segments: seq<seq<byte>>)
  {
    ghost predicate Valid() {
      && -TWO_63 <= granule < TWO_63
      && |rest| == 12
      && |segments| < 256 && Short(segments)
    }

    function Header(): (h: seq<byte>)
      requires Valid()
      ensures |h| == HEADER_SIZE
    {
      [0x4F, 0x67, 0x67, 0x53, version, flags] + ToLittleEndian(Wrap64(granule), 8) + rest + [|segments| as byte]
    }

    function Encode(): seq<byte>
      requires Valid()
    {
      Header() + Lengths(segments) + Concat(segments)
    }
  }

  ghost predicate AllValid(pages: seq<OggPage>) {
    forall p :: p in pages ==> p.Valid()
  }

  function EncodeAll(pages: seq<OggPage>): seq<byte>
    requires AllValid(pages)
  {
    if pages == [] then [] else pages[0].Encode() + EncodeAll(pages[1..])
  }

  /** One visit per page whose header fits below `end`, at the page's own offset. */
  function PageVisits(pages: seq<OggPage>, base: nat, end: nat): seq<Visit>
    requires AllValid(pages)
  {
    if pages == [] || base + HEADER_SIZE > end then []
    else [Page(base, pages[0].granule)] + PageVisits(pages[1..], base + |pages[0].Encode()|, end)
  }

  // ----- reading an encoded field back -----

  function Pow256(k: nat): nat {
    if k == 0 then 1 else 256 * Pow256(k - 1)
  }

  ghost predicate SameBytes(a: seq<byte>, i: nat, b: seq<byte>, j: nat, n: nat)
    requires i + n <= |a| && j + n <= |b|
  {
    forall k :: i <= k < i + n ==> a[k] == b[k - i + j]
  }

  lemma SameTail(a: seq<byte>, i: nat, b: seq<byte>, j: nat, n: nat)
    requires 0 < n && i + n <= |a| && j + n <= |b| && SameBytes(a, i, b, j, n)
    ensures a[i] == b[j] && SameBytes(a, i + 1, b, j + 1, n - 1)
  {
    assert a[i] == b[i - i + j];
  }

  lemma {:induction false} SameLittleEndian(a: seq<byte>, i: nat, b: seq<byte>, j: nat, n: nat)
    requires i + n <= |a| && j + n <= |b| && SameBytes(a, i, b, j, n)
    ensures LittleEndian(a, i, n) == LittleEndian(b, j, n)
    decreases n
  {
    if n > 0 {
      SameTail(a, i, b, j, n);
      SameLittleEndian(a, i + 1, b, j + 1, n - 1);
    }
  }

  lemma {:induction false} SameSum(a: seq<byte>, i: nat, b: seq<byte>, j: nat, n: nat)
    requires i + n <= |a| && j + n <= |b| && SameBytes(a, i, b, j, n)
    ensures Sum(a, i, i + n) == Sum(b, j, j + n)
    decreases n
  {
    if n > 0 {
      SameTail(a, i, b, j, n);
      SameSum(a, i + 1, b, j + 1, n - 1);
    }
  }

  /** The page size that the scanner adds up is the length of the payload. */
  lemma {:induction false} SizeOfSegments(segments: seq<seq<byte>>)
    requires Short(segments)
    ensures Sum(Lengths(segments), 0, |segments|) == |Concat(segments)|
  {
    if segments != [] {
      var table, rest := Lengths(segments), Lengths(segments[1..]);
      SizeOfSegments(segments[1..]);
      SameSum(table, 1, rest, 0, |rest|);
    }
  }

  lemma {:induction false} LittleEndianRoundTrip(n: nat, width: nat)
    requires n < Pow256(width)
    ensures LittleEndian(ToLittleEndian(n, width), 0, width) == n
  {
    if width > 0 {
      var bs, tail := ToLittleEndian(n, width), ToLittleEndian(n / 256, width - 1);
      LittleEndianRoundTrip(n / 256, width - 1);
      SameLittleEndian(bs, 1, tail, 0, width - 1);
    }
  }

  lemma GranuleRoundTrip(g: int)
    requires -TWO_63 <= g < TWO_63
    ensures Signed64(LittleEndian(ToLittleEndian(Wrap64(g), 8), 0, 8)) == g
  {
    assert Pow256(8) == TWO_64 by {
      assert Pow256(4) == 0x1_0000_0000;
      assert Pow256(6) == 0x1_0000_0000 * 65536;
    }
    LittleEndianRoundTrip(Wrap64(g), 8);
  }

  /** The granule position: eight bytes from offset 6 of the header, least significant first, in two's complement. */
  lemma GranuleMeaning(data: seq<byte>, pos: nat)
    requires pos + HEADER_SIZE <= |data|
    ensures var u := data[pos + 6] as nat + 0x100 * data[pos + 7] as nat + 0x1_0000 * data[pos + 8] as nat
                     + 0x100_0000 * data[pos + 9] as nat + 0x1_0000_0000 * data[pos + 10] as nat
                     + 0x100_0000_0000 * data[pos + 11] as nat + 0x1_0000_0000_0000 * data[pos + 12] as nat
                     + 0x100_0000_0000_0000 * data[pos + 13] as nat;
            GranuleAt(data, pos) == if data[pos + 13] >= 0x80 then u - 0x1_0000_0000_0000_0000 else u
  {
    FourBytes(data, pos + 10, 0);
    FourBytes(data, pos + 6, 4);
  }

  lemma FourBytes(data: seq<byte>, at: nat, more: nat)
    requires at + 4 + more <= |data|
    ensures LittleEndian(data, at, 4 + more)
            == data[at] as nat + 0x100 * data[at + 1] as nat + 0x1_0000 * data[at + 2] as nat
               + 0x100_0000 * data[at + 3] as nat + 0x1_0000_0000 * LittleEndian(data, at + 4, more)
  {
    assert LittleEndian(data, at, 4 + more) == data[at] as nat + 256 * LittleEndian(data, at + 1, 3 + more);
    assert LittleEndian(data, at + 1, 3 + more) == data[at + 1] as nat + 256 * LittleEndian(data, at + 2, 2 + more);
    assert LittleEndian(data, at + 2, 2 + more) == data[at + 2] as nat + 256 * LittleEndian(data, at + 3, 1 + more);
    assert LittleEndian(data, at + 3, 1 + more) == data[at + 3] as nat + 256 * LittleEndian(data, at + 4, more);
  }

  lemma HeaderReadsBack(p: OggPage)
    requires p.Valid()
    ensures CaptureAt(p.Header(), 0) && GranuleAt(p.Header(), 0) == p.granule && p.Header()[26] as nat == |p.segments|
  {
    var h, g := p.Header(), ToLittleEndian(Wrap64(p.granule), 8);
    GranuleRoundTrip(p.granule);
    assert h[6..14] == g;
    SameLittleEndian(h, 6, g, 0, 8);
  }

  /** A header at `pos` that agrees with a page's header is read as that page. */
  lemma HeaderAt(data: seq<byte>, pos: nat, p: OggPage)
    requires p.Valid() && pos + HEADER_SIZE <= |data| && SameBytes(data, pos, p.Header(), 0, HEADER_SIZE)
    ensures VisitAt(data, pos) == Page(pos, p.granule) && data[pos + 26] as nat == |p.segments|
  {
    var h := p.Header();
    HeaderReadsBack(p);
    assert data[pos] == h[0] && data[pos + 1] == h[1] && data[pos + 2] == h[2] && data[pos + 3] == h[3];
    assert data[pos + 26] == h[26];
    SameLittleEndian(data, pos + 6, h, 6, 8);
  }

  /** A page that starts at |pre|, possibly cut off at `end` anywhere behind its header. */
  lemma VisitCutPage(pre: seq<byte>, p: OggPage, post: seq<byte>, end: nat)
    requires p.Valid() && |pre| + HEADER_SIZE <= end <= |pre + p.Encode() + post|
    ensures var data := (pre + p.Encode() + post)[..end];
            && VisitAt(data, |pre|) == Page(|pre|, p.granule)
            && (Next(data, |pre|) == |pre + p.Encode()| || end <= Next(data, |pre|) <= |pre + p.Encode()|)
  {
    var data := (pre + p.Encode() + post)[..end];
    var pos := |pre|;
    var table := pos + HEADER_SIZE;
    var payload := table + |p.segments|;
    HeaderAt(data, pos, p);
    if payload <= end {
      assert SameBytes(data, table, Lengths(p.segments), 0, |p.segments|);
      SameSum(data, table, Lengths(p.segments), 0, |p.segments|);
      SizeOfSegments(p.segments);
    }
  }

  lemma EncodeAllCons(pre: seq<byte>, pages: seq<OggPage>)
    requires AllValid(pages) && pages != []
    ensures pre + EncodeAll(pages) == pre + pages[0].Encode() + EncodeAll(pages[1..])
  {
    var e, rest := pages[0].Encode(), EncodeAll(pages[1..]);
    assert pre + (e + rest) == pre + e + rest;
  }

  lemma VisitsOnward(data: seq<byte>, pos: nat, onward: nat)
    requires pos + HEADER_SIZE <= |data|
    requires Next(data, pos) == onward || |data| <= Next(data, pos) <= onward
    ensures Visits(data, pos) == [VisitAt(data, pos)] + Visits(data, onward)
  {
  }

  lemma FirstPageVisits(pre: seq<byte>, pages: seq<OggPage>, end: nat)
    requires AllValid(pages) && pages != [] && |pre| + HEADER_SIZE <= end <= |pre + EncodeAll(pages)|
    ensures var data := (pre + EncodeAll(pages))[..end];
            Visits(data, |pre|) == [Page(|pre|, pages[0].granule)] + Visits(data, |pre + pages[0].Encode()|)
  {
    EncodeAllCons(pre, pages);
    VisitCutPage(pre, pages[0], EncodeAll(pages[1..]), end);
    VisitsOnward((pre + EncodeAll(pages))[..end], |pre|, |pre + pages[0].Encode()|);
  }

  lemma {:induction false} ScanCutPages(pre: seq<byte>, pages: seq<OggPage>, end: nat, data: seq<byte>)
    requires AllValid(pages) && end <= |pre + EncodeAll(pages)| && data == (pre + EncodeAll(pages))[..end]
    ensures Visits(data, |pre|) == PageVisits(pages, |pre|, end)
    decreases |pages|
  {
    if pages != [] && |pre| + HEADER_SIZE <= end {
      var page := pages[0].Encode();
      EncodeAllCons(pre, pages);
      FirstPageVisits(pre, pages, end);
      ScanCutPages(pre + page, pages[1..], end, data);
      assert |pre + page| == |pre| + |page|;
    }
  }

  /**
   Parse of encode, for a stream cut at any byte: the scanner lands on exactly the page boundaries
   whose header survives, in order, reads every granule back, and never resynchronises.
   */
  lemma ScanOfTruncatedStream(pages: seq<OggPage>, end: nat)
    requires AllValid(pages) && end <= |EncodeAll(pages)|
    ensures Visits(EncodeAll(pages)[..end], 0) == PageVisits(pages, 0, end)
  {
    assert [] + EncodeAll(pages) == EncodeAll(pages);
    ScanCutPages([], pages, end, EncodeAll(pages)[..end]);
  }

  lemma {:induction false} PageVisitsAll(pages: seq<OggPage>, base: nat, end: nat)
    requires AllValid(pages) && end == base + |EncodeAll(pages)|
    ensures var vs := PageVisits(pages, base, end);
            |vs| == |pages| && forall i :: 0 <= i < |vs| ==> vs[i].Page? && vs[i].granule == pages[i].granule
    decreases |pages|
  {
    if pages != [] {
      PageVisitsAll(pages[1..], base + |pages[0].Encode()|, end);
    }
  }

  lemma HighestOfPages(pages: seq<OggPage>, vs: seq<Visit>)
    requires |vs| == |pages| && forall i :: 0 <= i < |vs| ==> vs[i].Page? && vs[i].granule == pages[i].granule
    ensures forall i :: 0 <= i < |pages| ==> pages[i].granule <= Highest(vs)
    ensures Highest(vs) == 0 || exists i :: 0 <= i < |pages| && pages[i].granule == Highest(vs)
  {
    HighestIsMaximum(vs);
    if Highest(vs) != 0 {
      var i :| 0 <= i < |vs| && vs[i].Page? && vs[i].granule == Highest(vs);
      assert pages[i].granule == Highest(vs);
    }
  }

  lemma ScanOfCompleteStream(pages: seq<OggPage>)
    requires AllValid(pages)
    ensures Visits(EncodeAll(pages), 0) == PageVisits(pages, 0, |EncodeAll(pages)|)
  {
    var data := EncodeAll(pages);
    ScanOfTruncatedStream(pages, |data|);
    assert data[..|data|] == data;
  }

  /** On a stream of complete pages the result is the maximum of 0 and all signed granule positions. */
  lemma TotalOfCompleteStream(pages: seq<OggPage>)
    requires AllValid(pages)
    ensures var total := Highest(Visits(EncodeAll(pages), 0));
            && (forall i :: 0 <= i < |pages| ==> pages[i].granule <= total)
            && (total == 0 || exists i :: 0 <= i < |pages| && pages[i].granule == total)
  {
    var end := |EncodeAll(pages)|;
    var vs := PageVisits(pages, 0, end);
    PageVisitsAll(pages, 0, end);
    HighestOfPages(pages, vs);
    assert Visits(EncodeAll(pages), 0) == vs by {
      ScanOfCompleteStream(pages);
    }
  }

  // ----- leading junk -----

  lemma StepAfterPrefix(junk: seq<byte>, data: seq<byte>, pos: nat)
    requires pos + HEADER_SIZE <= |data|
    ensures CaptureAt(junk + data, |junk| + pos) == CaptureAt(data, pos)
    ensures GranuleAt(junk + data, |junk| + pos) == GranuleAt(data, pos)
    ensures Next(junk + data, |junk| + pos) == |junk| + Next(data, pos)
  {
    var all, o := junk + data, |junk|;
    SameLittleEndian(all, o + pos + 6, data, pos + 6, 8);
    var table := pos + HEADER_SIZE;
    var segments := data[pos + 26] as nat;
    if table + segments <= |data| {
      SameSum(all, o + table, data, table, segments);
    }
  }

  lemma {:induction false} ScanAfterPrefix(junk: seq<byte>, data: seq<byte>, pos: nat)
    ensures BestFrom(junk + data, |junk| + pos) == BestFrom(data, pos)
    decreases |data| - pos
  {
    if pos + HEADER_SIZE <= |data| {
      StepAfterPrefix(junk, data, pos);
      ScanAfterPrefix(junk, data, Next(data, pos));
    }
  }

  lemma {:induction false} SkipJunk(data: seq<byte>, pos: nat, end: nat)
    requires pos <= end
    requires forall i :: pos <= i < end ==> !CaptureAt(data, i)
    ensures BestFrom(data, pos) == BestFrom(data, end)
    decreases end - pos
  {
    if pos < end {
      SkipJunk(data, pos + 1, end);
    }
  }

  /** Resynchronisation: bytes before the first capture pattern do not change the result. */
  lemma ResyncFindsFirstPage(junk: seq<byte>, data: seq<byte>)
    requires forall i :: 0 <= i < |junk| ==> !CaptureAt(junk + data, i)
    ensures Highest(Visits(junk + data, 0)) == Highest(Visits(data, 0))
  {
    SkipJunk(junk + data, 0, |junk|);
    ScanAfterPrefix(junk, data, 0);
    BestIsHighest(junk + data, 0);
    BestIsHighest(data, 0);
  }
}
