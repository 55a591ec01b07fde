/** Page counting and pricing (`calculatePages`, `calculateCost`).

    A PDF is counted by scanning its first 8000 bytes for the regular expression
    `/\/Type\s*\/Page[^s]/g`, an image is one page, and any other document is estimated
    from its size at 250 KiB per page. Every branch yields at least one page. The file
    read is an abstract outcome: the bytes, a reader error, or an exception in the
    reader's load handler. */
module PageCalculator {
  import opened Files

  /** A byte of the file; `String.fromCharCode` turns it into the character with that code. */
  type Byte = b: int | 0 <= b < 256

  const PdfType: string := "application/pdf"
  const ImagePrefix: string := "image/"

  /** Only this many leading bytes of a PDF are scanned. */
  const ScanWindow: nat := 8000

  /** `250 * 1024`: the assumed size of one page of a document that is not a PDF or an image. */
  const AveragePageSize: nat := 256000

  /** Rupees per page. */
  const PricePerPage: nat := 4

  /** The bytes of "/Type" and of "/Page", and the byte of 's'. */
  const TypeKey: seq<Byte> := [47, 84, 121, 112, 101]
  const PageKey: seq<Byte> := [47, 80, 97, 103, 101]
  const LowerS: Byte := 115

  /** What reading the file gave the page counter. */
  datatype ReadOutcome =
    | Loaded(data: seq<Byte>)  // `reader.onload` with the file's bytes
    | ReadFailed               // `reader.onerror`
    | HandlerThrew             // an exception inside the load handler

  predicate StartsWith(s: string, prefix: string) {
    |prefix| <= |s| && s[..|prefix|] == prefix
  }

  /** The class `\s` of a JavaScript regular expression on the character codes 0..255:
      tab, line feed, vertical tab, form feed, carriage return, space and no-break space. */
  predicate IsSpace(b: Byte) {
    b == 9 || b == 10 || b == 11 || b == 12 || b == 13 || b == 32 || b == 160
  }

  /** The end of the run of whitespace bytes that starts at `i`. */
  function SpaceRunEnd(s: seq<Byte>, i: nat): (j: nat)
    requires i <= |s|
    ensures i <= j <= |s|
    ensures forall k :: i <= k < j ==> IsSpace(s[k])
    ensures j < |s| ==> !IsSpace(s[j])
    decreases |s| - i
  {
    if i < |s| && IsSpace(s[i]) then SpaceRunEnd(s, i + 1) else i
  }

  /** The length of the match of the marker pattern at the very start of `s`, or 0 when
      the pattern does not match there. `\s*` is followed by '/', which is not whitespace,
      so the greedy run of whitespace is the only way the pattern can match. */
  function MarkerLength(s: seq<Byte>): (n: nat)
    ensures n == 0 || 11 <= n <= |s|
  {
    if |s| >= 5 && s[..5] == TypeKey then
      var j := SpaceRunEnd(s, 5);
      if j + 6 <= |s| && s[j..j + 5] == PageKey && s[j + 5] != LowerS then j + 6 else 0
    else 0
  }

  /** The first `n` bytes of `s` are "/Type", any whitespace, "/Page" and one byte other than 's'. */
  ghost predicate IsMarker(s: seq<Byte>, n: nat) {
    && 11 <= n <= |s|
    && s[..5] == TypeKey
    && (forall k :: 5 <= k < n - 6 ==> IsSpace(s[k]))
    && s[n - 6..n - 1] == PageKey
    && s[n - 1] != LowerS
  }

  /** The scanner's match is exactly the pattern: it finds a match of length `n` if and
      only if the first `n` bytes have the marker's shape. */
  lemma MarkerLengthCharacterised(s: seq<Byte>, n: nat)
    ensures (n > 0 && MarkerLength(s) == n) <==> IsMarker(s, n)
  {
    if IsMarker(s, n) {
      var j := SpaceRunEnd(s, 5);
      assert s[n - 6] == PageKey[0];
      assert !IsSpace(s[n - 6]);
      assert j == n - 6;
      assert s[j..j + 5] == PageKey;
    }
    if n > 0 && MarkerLength(s) == n {
      var j := SpaceRunEnd(s, 5);
      assert j == n - 6;
      assert s[n - 6..n - 1] == s[j..j + 5];
    }
  }

  /** A match has one length only: the pattern's matches at one position never overlap
      in two ways. */
  lemma MarkerUnique(s: seq<Byte>, m: nat, n: nat)
    requires IsMarker(s, m) && IsMarker(s, n)
    ensures m == n
  {
    MarkerLengthCharacterised(s, m);
    MarkerLengthCharacterised(s, n);
  }

  /** A "/Type /Pages" entry (the page tree's root) is not a match. */
  lemma PagesEntryNotCounted(s: seq<Byte>, w: nat)
    requires |s| >= w + 11
    requires s[..5] == TypeKey
    requires forall k :: 5 <= k < 5 + w ==> IsSpace(s[k])
    requires s[5 + w..10 + w] == PageKey && s[10 + w] == LowerS
    ensures MarkerLength(s) == 0
  {
    var j := SpaceRunEnd(s, 5);
    assert s[5 + w] == PageKey[0];
    assert j == 5 + w;
  }

  /** "/Type /Page " is one match (all of its 12 bytes), and "/Type/Page/Type/Page "
      is one match too: the first match consumes the '/' that starts the second "/Type". */
  lemma MarkerExamples()
    ensures CountMarkers([47, 84, 121, 112, 101, 32, 47, 80, 97, 103, 101, 32]) == 1
    ensures CountMarkers([47, 84, 121, 112, 101, 47, 80, 97, 103, 101,
                          47, 84, 121, 112, 101, 47, 80, 97, 103, 101, 32]) == 1
  {
    var one: seq<Byte> := [47, 84, 121, 112, 101, 32, 47, 80, 97, 103, 101, 32];
    assert one[..5] == TypeKey;
    assert SpaceRunEnd(one, 5) == 6 by {
      assert SpaceRunEnd(one, 6) == 6;
    }
    assert one[6..11] == PageKey;
    assert MarkerLength(one) == 12;
    assert CountMarkers(one[12..]) == 0;
    var two: seq<Byte> := [47, 84, 121, 112, 101, 47, 80, 97, 103, 101,
                           47, 84, 121, 112, 101, 47, 80, 97, 103, 101, 32];
    assert two[..5] == TypeKey;
    assert two[5..10] == PageKey;
    assert MarkerLength(two) == 11;
    assert |two[11..]| == 10;
  }

  /** The number of matches of the global regular expression: a match consumes its bytes,
      including the trailing non-'s' byte, and the search resumes after it; where nothing
      matches the search moves on by one byte. */
  function CountMarkers(s: seq<Byte>): (c: nat)
    ensures 11 * c <= |s|
    decreases |s|
  {
    if s == [] then 0
    else
      var n := MarkerLength(s);
      if n > 0 then 1 + CountMarkers(s[n..]) else CountMarkers(s[1..])
  }

  /** The count of a PDF's bytes: the matches in its first 8000 bytes, at least one. */
  function PdfPageCount(data: seq<Byte>): (pages: nat)
    ensures 1 <= pages <= ScanWindow / 11
  {
    var window := data[..if |data| < ScanWindow then |data| else ScanWindow];
    var c := CountMarkers(window);
    if c == 0 then 1 else c
  }

  /** `Math.max(1, Math.ceil(size / 256000))`: a size of 0 is one page, and otherwise the
      pages are the fewest whole pages of 256000 bytes that hold `size` bytes. */
  function SizeEstimate(size: nat): (pages: nat)
    ensures pages >= 1
    ensures size == 0 ==> pages == 1
    ensures size > 0 ==> (pages - 1) * AveragePageSize < size <= pages * AveragePageSize
  {
    if size == 0 then 1 else (size + AveragePageSize - 1) / AveragePageSize
  }

  /** `calculatePages`: pick the count by MIME type. */
  function CalculatePages(file: BrowserFile, read: ReadOutcome): (pages: nat)
    ensures pages >= 1
  {
    if file.mimeType == PdfType then
      match read
      case Loaded(data) => PdfPageCount(data)
      case ReadFailed => 1
      case HandlerThrew => 1
    else if StartsWith(file.mimeType, ImagePrefix) then 1
    else SizeEstimate(file.size)
  }

  /** `calculateCost`: four rupees a page. */
  function CalculateCost(pages: nat): nat
  {
    pages * PricePerPage
  }

  /** Every image is one page, whatever its size. */
  lemma ImageIsOnePage(file: BrowserFile, read: ReadOutcome)
    requires StartsWith(file.mimeType, ImagePrefix)
    ensures CalculatePages(file, read) == 1
  {
    assert file.mimeType[0] == ImagePrefix[0] != PdfType[0];
  }

  /** A file that is neither a PDF nor an image is estimated from its size alone. */
  lemma OtherTypesBySize(file: BrowserFile, read: ReadOutcome)
    requires file.mimeType != PdfType && !StartsWith(file.mimeType, ImagePrefix)
    ensures CalculatePages(file, read) == SizeEstimate(file.size)
    ensures file.size > 0 ==> (CalculatePages(file, read) - 1) * AveragePageSize < file.size
  {
  }

  /** A larger file never gets a smaller size estimate. */
  lemma SizeEstimateMonotone(a: nat, b: nat)
    requires a <= b
    ensures SizeEstimate(a) <= SizeEstimate(b)
  {
  }

  /** A failed read or an exception in the load handler counts as one page. */
  lemma ReadFailureIsOnePage(file: BrowserFile, read: ReadOutcome)
    requires file.mimeType == PdfType && !read.Loaded?
    ensures CalculatePages(file, read) == 1
  {
  }

  /** Bytes after the first 8000 never change a PDF's count. */
  lemma PdfIgnoresTail(data: seq<Byte>, tail: seq<Byte>)
    requires |data| >= ScanWindow
    ensures PdfPageCount(data + tail) == PdfPageCount(data)
  {
    assert (data + tail)[..ScanWindow] == data[..ScanWindow];
  }

  /** A PDF's count is the number of matches in its scanned prefix, with a floor of one. */
  lemma PdfCountIsMatches(data: seq<Byte>)
    requires |data| <= ScanWindow
    ensures PdfPageCount(data) == if CountMarkers(data) == 0 then 1 else CountMarkers(data)
  {
    assert data[..|data|] == data;
  }

  /** Pricing is additive: two documents cost what their pages together cost, and no
      pages cost nothing. */
  lemma CostAdditive(a: nat, b: nat)
    ensures CalculateCost(a + b) == CalculateCost(a) + CalculateCost(b)
    ensures CalculateCost(0) == 0
  {
  }
}
