/** The radar side of the client: the fourteen radar product codes of the
    MRMS data server, and the crawler that reads one of its directory-index
    pages into `RemoteFile` records.

    The page is given as what the HTML step yields: the `<td>` cells that are
    direct children of a `<tr>`, in document order, each with its text and
    the `href` of its first child. */
module Radar {
  import opened Wrappers
  import opened Strings
  import ListingTime
  import Json

  // ---------------------------------------------------------------------
  // Radar product codes
  // ---------------------------------------------------------------------

  datatype RadarType =
    | BrefRaw | BvelRaw
    | Bdhc | Bdsa | Bdzd | Beet | Bohp | Bref | Bsrm | Bsta | Bstp | Bvel | Cref | Hvil

  /** `Display for RadarType`: the product's code, as it appears in the data
      server's paths. */
  function Display(t: RadarType): (s: string)
    ensures 4 <= |s| <= 8
    ensures forall i :: 0 <= i < |s| ==> 'A' <= s[i] <= 'Z' || s[i] == '_'
  {
    match t
    case BrefRaw => "BREF_RAW"
    case BvelRaw => "BVEL_RAW"
    case Bdhc => "BDHC"
    case Bdsa => "BDSA"
    case Bdzd => "BDZD"
    case Beet => "BEET"
    case Bohp => "BOHP"
    case Bref => "BREF"
    case Bsrm => "BSRM"
    case Bsta => "BSTA"
    case Bstp => "BSTP"
    case Bvel => "BVEL"
    case Cref => "CREF"
    case Hvil => "HVIL"
  }

  /** Reads a product code back; `None` for a string that names no product. */
  function Decode(s: string): (r: Option<RadarType>)
    ensures r.Some? ==> Display(r.value) == s
  {
    match s
    case "BREF_RAW" => Some(BrefRaw)
    case "BVEL_RAW" => Some(BvelRaw)
    case "BDHC" => Some(Bdhc)
    case "BDSA" => Some(Bdsa)
    case "BDZD" => Some(Bdzd)
    case "BEET" => Some(Beet)
    case "BOHP" => Some(Bohp)
    case "BREF" => Some(Bref)
    case "BSRM" => Some(Bsrm)
    case "BSTA" => Some(Bsta)
    case "BSTP" => Some(Bstp)
    case "BVEL" => Some(Bvel)
    case "CREF" => Some(Cref)
    case "HVIL" => Some(Hvil)
    case _ => None
  }

  /** Every code reads back as its product, so no two products share a code. */
  lemma DecodeDisplay(t: RadarType)
    ensures Decode(Display(t)) == Some(t)
  {
  }

  lemma DisplayInjective(a: RadarType, b: RadarType)
    ensures Display(a) == Display(b) <==> a == b
  {
    DecodeDisplay(a);
    DecodeDisplay(b);
  }

  /** Position of a product in the enum's declaration. */
  function Ordinal(t: RadarType): nat {
    match t
    case BrefRaw => 0
    case BvelRaw => 1
    case Bdhc => 2
    case Bdsa => 3
    case Bdzd => 4
    case Beet => 5
    case Bohp => 6
    case Bref => 7
    case Bsrm => 8
    case Bsta => 9
    case Bstp => 10
    case Bvel => 11
    case Cref => 12
    case Hvil => 13
  }

  /** `RadarType::values`: every product exactly once, in declaration order. */
  function Values(): (vs: seq<RadarType>)
    ensures |vs| == 14
    ensures forall i :: 0 <= i < |vs| ==> Ordinal(vs[i]) == i
    ensures forall t :: vs[Ordinal(t)] == t
  {
    [BrefRaw, BvelRaw, Bdhc, Bdsa, Bdzd, Beet, Bohp, Bref, Bsrm, Bsta, Bstp, Bvel, Cref, Hvil]
  }

  /** `Serialize for RadarType`: a JSON string holding the product's code,
      which reads back as the product. */
  function Serialize(t: RadarType): (j: Json.Value)
    ensures j == Json.String(Display(t))
    ensures j.String? && Decode(j.s) == Some(t)
  {
    DecodeDisplay(t);
    Json.String(Display(t))
  }

  // ---------------------------------------------------------------------
  // Sizes
  // ---------------------------------------------------------------------

  /** `FileSize`: the number exactly as the listing prints it, with its unit.
      The number is kept as the literal that `f64` parsing accepted. */
  datatype FileSize = B(num: string) | K(num: string) | M(num: string) | G(num: string)

  /** How the listing prints a size: the number, then the unit letter (none
      for plain bytes). */
  function SizeText(f: FileSize): string {
    match f
    case B(n) => n
    case K(n) => n + "K"
    case M(n) => n + "M"
    case G(n) => n + "G"
  }

  /** A size the listing can print: a float literal, ending in a digit when it
      has no unit letter. */
  predicate PrintableSize(f: FileSize) {
    IsFloatLiteral(f.num) && (f.B? ==> f.num != [] && IsDigit(f.num[|f.num| - 1]))
  }

  /** What the crawler does instead of returning: each stands for one panic of
      the crawl (an out-of-bounds index or a failed `unwrap`). */
  datatype Fault =
    | IndexOutOfBounds(index: nat, len: nat)
    | BadBaseUrl
    | MissingHref
    | BadTimestamp(text: string)
    | BadSize(text: string)

  /** `FileSize::new`: `None` for an empty or `-` size and for any ASCII
      character other than a digit, K, M or G at the end after a valid number;
      a fault where the number does not parse
      (or, for a non-ASCII last character, where Rust's byte split or parse
      fails). */
  function ParseSize(text: string): (r: Result<Option<FileSize>, Fault>)
    ensures text == [] || text == "-" ==> r == Success(None)
    ensures r.Success? && r.value.Some? ==> PrintableSize(r.value.value) && SizeText(r.value.value) == text
    ensures r.Failure? ==> r.error == BadSize(text)
    ensures text != [] && text[|text| - 1] as int >= 0x80 ==> r == Failure(BadSize(text))
    ensures text != [] && IsDigit(text[|text| - 1]) ==>
      r == if IsFloatLiteral(text) then Success(Some(B(text))) else Failure(BadSize(text))
    ensures text != [] && text != "-" && text[|text| - 1] as int < 0x80 && !IsDigit(text[|text| - 1]) ==>
      var num, last := text[..|text| - 1], text[|text| - 1];
      r == if !IsFloatLiteral(num) then Failure(BadSize(text))
           else if last == 'K' then Success(Some(K(num)))
           else if last == 'M' then Success(Some(M(num)))
           else if last == 'G' then Success(Some(G(num)))
           else Success(None)
  {
    if text == [] || text == "-" then Success(None)
    else
      var last := text[|text| - 1];
      if last as int >= 0x80 then Failure(BadSize(text))
      else if IsDigit(last) then
        if IsFloatLiteral(text) then Success(Some(B(text))) else Failure(BadSize(text))
      else
        var num := text[..|text| - 1];
        assert text == num + [last];
        if !IsFloatLiteral(num) then Failure(BadSize(text))
        else if last == 'K' then Success(Some(K(num)))
        else if last == 'M' then Success(Some(M(num)))
        else if last == 'G' then Success(Some(G(num)))
        else Success(None)
  }

  /** Every size the listing prints reads back as itself. */
  lemma ParseSizeText(f: FileSize)
    requires PrintableSize(f)
    ensures ParseSize(SizeText(f)) == Success(Some(f))
  {
    var text := SizeText(f);
    if !f.B? {
      assert text[..|text| - 1] == f.num;
    }
  }

  /** A number with an unknown ASCII unit letter is no size at all, while one
      whose number does not parse is a fault. */
  lemma ParseSizeUnknownUnit(num: string, unit: char)
    requires 'A' <= unit <= 'Z' && unit != 'K' && unit != 'M' && unit != 'G'
    ensures IsFloatLiteral(num) ==> ParseSize(num + [unit]) == Success(None)
    ensures !IsFloatLiteral(num) ==> ParseSize(num + [unit]) == Failure(BadSize(num + [unit]))
  {
    assert (num + [unit])[..|num|] == num;
  }

  /** A unit letter splits off the number: `1.5K` is 1.5 kilobytes. */
  lemma ParseSizeKilo(text: string)
    requires text == "1.5K"
    ensures ParseSize(text) == Success(Some(K("1.5")))
  {
    assert text[..3] == "1.5";
  }

  /** A plain number is a count of bytes. */
  lemma ParseSizeBytes(text: string)
    requires text == "200"
    ensures ParseSize(text) == Success(Some(B("200")))
  {
  }

  /** An unknown unit letter after a valid number gives no size at all. */
  lemma ParseSizeUnknownExample(text: string)
    requires text == "3.2Q"
    ensures ParseSize(text) == Success(None)
  {
    assert text[..3] == "3.2";
  }

  /** A number that does not parse is a fault. */
  lemma ParseSizeJunk(text: string)
    requires text == "1.2.3M"
    ensures ParseSize(text) == Failure(BadSize(text))
  {
    assert text[..5] == "1.2.3";
    TwoPointsNotFloat(text[..5]);
  }

  /** A number with two points is not a float literal. */
  lemma TwoPointsNotFloat(num: string)
    requires num == "1.2.3"
    ensures !IsFloatLiteral(num)
  {
    assert LowerAscii(num)[1] == '.';
    assert ExponentMark(num).None?;
    IndexOfSeparator("1", '.', "2.3");
    assert num == "1" + ['.'] + "2.3";
    assert num[2..] == "2.3" && !IsDigit(num[2..][1]);
  }

  // ---------------------------------------------------------------------
  // Rows and records
  // ---------------------------------------------------------------------

  /** One `<td>` cell: its text content (untrimmed) and the `href` of its first
      child node, `None` when it has no child or the child no `href`. */
  datatype Cell = Cell(text: string, firstHref: Option<string>)

  /** The scheme and host the URL parser reports for the base URL; a base
      that does not parse, or parses without a host, has none. */
  datatype Origin = Origin(scheme: string, host: string)

  /** `RemoteFile`; `RemoteFile::new` is this constructor, which keeps its
      arguments as they are. */
  datatype RemoteFile = RemoteFile(
    url: string,
    lastModified: Option<ListingTime.DateTime>,
    size: Option<FileSize>)

  const ParentDirectory: string := "Parent Directory"

  /** The "up one level" row of an index page. */
  predicate IsParentRow(name: string, size: string) {
    name == ParentDirectory && size == "-"
  }

  /** The URL of a row: built from the base's scheme and host and the link's
      `href` for the parent row, the base followed by the name for any other. */
  function ResolveUrl(base: string, origin: Option<Origin>, nameCell: Cell, name: string, size: string)
    : (r: Result<string, Fault>)
    ensures IsParentRow(name, size) && origin.None? ==> r == Failure(BadBaseUrl)
    ensures IsParentRow(name, size) && origin.Some? && nameCell.firstHref.None? ==> r == Failure(MissingHref)
    ensures r.Success? && IsParentRow(name, size) ==>
      && origin.Some? && nameCell.firstHref.Some?
      && r.value == origin.value.scheme + "://" + origin.value.host + nameCell.firstHref.value
    ensures IsParentRow(name, size) && origin.Some? && nameCell.firstHref.Some? ==>
      r == Success(origin.value.scheme + "://" + origin.value.host + nameCell.firstHref.value)
    ensures !IsParentRow(name, size) ==> r == Success(base + name)
  {
    if IsParentRow(name, size) then
      match origin
      case None => Failure(BadBaseUrl)
      case Some(o) =>
        match nameCell.firstHref
        case None => Failure(MissingHref)
        case Some(href) => Success(o.scheme + "://" + o.host + href)
    else Success(base + name)
  }

  /** The modified column: nothing when empty, else the listing time, whose
      failure to parse is a fault. */
  function DecodeModified(text: string): (r: Result<Option<ListingTime.DateTime>, Fault>)
    ensures text == [] <==> r == Success(None)
    ensures text != [] && r.Success? ==> r.value == ListingTime.Parse(text) && r.value.Some?
    ensures r.Failure? <==> text != [] && ListingTime.Parse(text).None?
    ensures r.Failure? ==> r.error == BadTimestamp(text)
  {
    if text == [] then Success(None)
    else match ListingTime.Parse(text)
      case None => Failure(BadTimestamp(text))
      case Some(t) => Success(Some(t))
  }

  /** One row of the listing: trims the three cells, resolves the URL, then
      decodes the modified time, then the size; the first fault wins. */
  function DecodeRow(base: string, origin: Option<Origin>, nameCell: Cell, modifiedCell: Cell, sizeCell: Cell)
    : (r: Result<RemoteFile, Fault>)
    ensures var name, modified, size := Trim(nameCell.text), Trim(modifiedCell.text), Trim(sizeCell.text);
      && (r.Success? <==>
            && ResolveUrl(base, origin, nameCell, name, size).Success?
            && DecodeModified(modified).Success?
            && ParseSize(size).Success?)
      && (r.Success? ==>
            && Success(r.value.url) == ResolveUrl(base, origin, nameCell, name, size)
            && Success(r.value.lastModified) == DecodeModified(modified)
            && Success(r.value.size) == ParseSize(size))
    ensures var name, modified, size := Trim(nameCell.text), Trim(modifiedCell.text), Trim(sizeCell.text);
      var url := ResolveUrl(base, origin, nameCell, name, size);
      r.Failure? ==>
        r.error == if url.Failure? then url.error
                   else if DecodeModified(modified).Failure? then DecodeModified(modified).error
                   else ParseSize(size).error
  {
    var name := Trim(nameCell.text);
    var modified := Trim(modifiedCell.text);
    var size := Trim(sizeCell.text);
    match ResolveUrl(base, origin, nameCell, name, size)
    case Failure(e) => Failure(e)
    case Success(url) =>
      match DecodeModified(modified)
      case Failure(e) => Failure(e)
      case Success(lastModified) =>
        match ParseSize(size)
        case Failure(e) => Failure(e)
        case Success(fileSize) => Success(RemoteFile(url, lastModified, fileSize))
  }

  // ---------------------------------------------------------------------
  // The crawl
  // ---------------------------------------------------------------------

  /** Decodes the three cells of one row. */
  type RowDecoder = (Cell, Cell, Cell) -> Result<RemoteFile, Fault>

  /** The row decoding of a page fetched from `base`, whose parsed URL has
      the given origin. */
  function Decoder(base: string, origin: Option<Origin>): (d: RowDecoder)
    ensures forall n, m, s :: d(n, m, s) == DecodeRow(base, origin, n, m, s)
  {
    (n, m, s) => DecodeRow(base, origin, n, m, s)
  }

  /** The rows from cell `i` on: a row starts at every third cell, and a row
      that starts but lacks its second or third cell is an out-of-bounds index. */
  function CrawlFrom(decode: RowDecoder, cells: seq<Cell>, i: nat): Result<seq<RemoteFile>, Fault>
    decreases |cells| - i
  {
    if i >= |cells| then Success([])
    else if i + 1 >= |cells| then Failure(IndexOutOfBounds(i + 1, |cells|))
    else if i + 2 >= |cells| then Failure(IndexOutOfBounds(i + 2, |cells|))
    else
      match decode(cells[i], cells[i + 1], cells[i + 2])
      case Failure(e) => Failure(e)
      case Success(f) =>
        match CrawlFrom(decode, cells, i + 3)
        case Failure(e) => Failure(e)
        case Success(rest) => Success([f] + rest)
  }

  /** What `crawl` returns for a page, after the fetch. */
  function CrawlRows(base: string, origin: Option<Origin>, cells: seq<Cell>): Result<seq<RemoteFile>, Fault> {
    CrawlFrom(Decoder(base, origin), cells, 0)
  }

  /** Row `k` of the page, decoded. */
  function RowAt(base: string, origin: Option<Origin>, cells: seq<Cell>, k: nat): Result<RemoteFile, Fault>
    requires 3 * k + 2 < |cells|
  {
    RowOf(Decoder(base, origin), cells, 3 * k)
  }

  function Prepend(files: seq<RemoteFile>, r: Result<seq<RemoteFile>, Fault>): Result<seq<RemoteFile>, Fault> {
    match r
    case Success(rest) => Success(files + rest)
    case Failure(e) => Failure(e)
  }

  /** A row that is complete is decoded first, then the rest of the page. */
  lemma CrawlStep(decode: RowDecoder, cells: seq<Cell>, i: nat)
    requires i + 2 < |cells|
    ensures var row := decode(cells[i], cells[i + 1], cells[i + 2]);
      CrawlFrom(decode, cells, i)
        == if row.Failure? then Failure(row.error) else Prepend([row.value], CrawlFrom(decode, cells, i + 3))
  {
  }

  lemma PrependConcat(a: seq<RemoteFile>, b: seq<RemoteFile>, r: Result<seq<RemoteFile>, Fault>)
    ensures Prepend(a, Prepend(b, r)) == Prepend(a + b, r)
    ensures Prepend([], r) == r
  {
    if r.Success? {
      assert a + (b + r.value) == (a + b) + r.value;
      assert [] + r.value == r.value;
    }
  }

  /** The loop of `crawl`: walks the cells three at a time, decoding each row
      and appending its record; indexing past the end of a partial row panics. */
  method Walk(decode: RowDecoder, cells: seq<Cell>) returns (r: Result<seq<RemoteFile>, Fault>)
    ensures r == CrawlFrom(decode, cells, 0)
  {
    var files: seq<RemoteFile> := [];
    var i := 0;
    PrependConcat([], [], CrawlFrom(decode, cells, 0));
    while i < |cells|
      invariant i <= |cells|
      invariant CrawlFrom(decode, cells, 0) == Prepend(files, CrawlFrom(decode, cells, i))
      decreases |cells| - i
    {
      if i + 1 >= |cells| {
        return Failure(IndexOutOfBounds(i + 1, |cells|));
      }
      if i + 2 >= |cells| {
        return Failure(IndexOutOfBounds(i + 2, |cells|));
      }
      var row := decode(cells[i], cells[i + 1], cells[i + 2]);
      CrawlStep(decode, cells, i);
      if row.Failure? {
        return Failure(row.error);
      }
      PrependConcat(files, [row.value], CrawlFrom(decode, cells, i + 3));
      files := files + [row.value];
      i := i + 3;
    }
    assert files + [] == files;
    r := Success(files);
  }

  /** `crawl` once the page at `base` has been fetched and its table cells
      selected. */
  method Crawl(base: string, origin: Option<Origin>, cells: seq<Cell>) returns (r: Result<seq<RemoteFile>, Fault>)
    ensures r == CrawlRows(base, origin, cells)
  {
    r := Walk(Decoder(base, origin), cells);
  }

  // ---------------------------------------------------------------------
  // What a crawl yields
  // ---------------------------------------------------------------------

  /** The row that starts at cell `j`, decoded. */
  function RowOf(decode: RowDecoder, cells: seq<Cell>, j: nat): Result<RemoteFile, Fault>
    requires j + 2 < |cells|
  {
    decode(cells[j], cells[j + 1], cells[j + 2])
  }

  /** From cell `i` on, the crawl yields `files` exactly when three cells
      remain per record and each row decodes to its record, in order. */
  lemma {:induction false} CrawlFromSuccess(decode: RowDecoder, cells: seq<Cell>, i: nat, files: seq<RemoteFile>)
    requires i <= |cells|
    ensures CrawlFrom(decode, cells, i) == Success(files) <==>
      && |cells| - i == 3 * |files|
      && forall k :: 0 <= k < |files| ==> RowOf(decode, cells, i + 3 * k) == Success(files[k])
    decreases |cells| - i
  {
    if i + 2 < |cells| {
      CrawlStep(decode, cells, i);
      if files != [] {
        CrawlFromSuccess(decode, cells, i + 3, files[1..]);
        if CrawlFrom(decode, cells, i) == Success(files) {
          forall k | 0 <= k < |files|
            ensures RowOf(decode, cells, i + 3 * k) == Success(files[k])
          {
            if k > 0 {
              assert files[1..][k - 1] == files[k];
              assert i + 3 + 3 * (k - 1) == i + 3 * k;
            }
          }
        }
        if |cells| - i == 3 * |files| && forall k :: 0 <= k < |files| ==> RowOf(decode, cells, i + 3 * k) == Success(files[k]) {
          forall k | 0 <= k < |files| - 1
            ensures RowOf(decode, cells, i + 3 + 3 * k) == Success(files[1..][k])
          {
            assert i + 3 + 3 * k == i + 3 * (k + 1);
          }
          assert RowOf(decode, cells, i + 3 * 0) == Success(files[0]);
          assert files == [files[0]] + files[1..];
        }
      }
    }
  }

  /** When the cells from `i` on are not a whole number of rows and every
      complete row decodes, the crawl panics indexing the missing cell of the
      last row, which is always one past the end. */
  lemma {:induction false} CrawlFromPartial(decode: RowDecoder, cells: seq<Cell>, i: nat)
    requires i <= |cells| && (|cells| - i) % 3 != 0
    requires forall j :: i <= j && j + 2 < |cells| && (j - i) % 3 == 0 ==> RowOf(decode, cells, j).Success?
    ensures CrawlFrom(decode, cells, i) == Failure(IndexOutOfBounds(|cells|, |cells|))
    decreases |cells| - i
  {
    if i + 2 < |cells| {
      CrawlStep(decode, cells, i);
      assert RowOf(decode, cells, i).Success?;
      forall j | i + 3 <= j && j + 2 < |cells| && (j - (i + 3)) % 3 == 0
        ensures RowOf(decode, cells, j).Success?
      {
        assert (j - i) % 3 == 0;
      }
      CrawlFromPartial(decode, cells, i + 3);
    }
  }

  /** The first row from `i` on that fails to decode decides the crawl's
      fault, and no record is returned. */
  lemma {:induction false} CrawlFromFault(decode: RowDecoder, cells: seq<Cell>, i: nat, f: nat)
    requires i <= f && f + 2 < |cells| && (f - i) % 3 == 0
    requires forall j :: i <= j < f && (j - i) % 3 == 0 ==> RowOf(decode, cells, j).Success?
    requires RowOf(decode, cells, f).Failure?
    ensures CrawlFrom(decode, cells, i) == Failure(RowOf(decode, cells, f).error)
    decreases f - i
  {
    CrawlStep(decode, cells, i);
    if i < f {
      assert RowOf(decode, cells, i).Success?;
      forall j | i + 3 <= j < f && (j - (i + 3)) % 3 == 0
        ensures RowOf(decode, cells, j).Success?
      {
        assert (j - i) % 3 == 0;
      }
      CrawlFromFault(decode, cells, i + 3, f);
    }
  }

  /** The page decodes to `files` exactly when it has three cells per record
      and each row decodes to its record, in order. */
  lemma CrawlRowsSuccess(base: string, origin: Option<Origin>, cells: seq<Cell>, files: seq<RemoteFile>)
    ensures CrawlRows(base, origin, cells) == Success(files) <==>
      && |cells| == 3 * |files|
      && forall k :: 0 <= k < |files| ==> RowAt(base, origin, cells, k) == Success(files[k])
  {
    CrawlFromSuccess(Decoder(base, origin), cells, 0, files);
  }

  // ---------------------------------------------------------------------
  // The listing the server prints
  // ---------------------------------------------------------------------

  /** A record the server can list under `base`: its URL is the base followed
      by a name with no whitespace at either end (and not the parent row), its
      time is printable in the listing format and its size is printable. */
  predicate Listable(base: string, f: RemoteFile) {
    && base <= f.url
    && TrimmedName(f.url[|base|..])
    && !(f.url[|base|..] == ParentDirectory && f.size.None?)
    && (f.lastModified.Some? ==> ListingTime.Valid(f.lastModified.value) && 0 <= f.lastModified.value.year <= 9999)
    && (f.size.Some? ==> PrintableSize(f.size.value))
  }

  predicate TrimmedName(name: string) {
    name == [] || (!IsWhitespace(name[0]) && !IsWhitespace(name[|name| - 1]))
  }

  /** The time cell of a record: empty when it has none. */
  function ModifiedText(t: Option<ListingTime.DateTime>): string
    requires t.Some? ==> ListingTime.Valid(t.value) && 0 <= t.value.year <= 9999
  {
    if t.None? then "" else ListingTime.Format(t.value)
  }

  /** The size cell of a record: `-` when it has none. */
  function SizeCellText(size: Option<FileSize>): string {
    if size.None? then "-" else SizeText(size.value)
  }

  /** The three cells of a record's row: its name, its time and its size. */
  function RenderRow(base: string, f: RemoteFile): (row: seq<Cell>)
    requires Listable(base, f)
    ensures |row| == 3 && base + row[0].text == f.url
  {
    [Cell(f.url[|base|..], None), Cell(ModifiedText(f.lastModified), None), Cell(SizeCellText(f.size), None)]
  }

  /** Rows of three cells laid out one after the other, as the page's
      `<td>` cells appear in document order. */
  function Flatten(rows: seq<seq<Cell>>): (cells: seq<Cell>)
    requires forall k :: 0 <= k < |rows| ==> |rows[k]| == 3
    ensures |cells| == 3 * |rows|
  {
    if rows == [] then [] else rows[0] + Flatten(rows[1..])
  }

  /** Cell `3k + c` of the laid-out rows is cell `c` of row `k`. */
  lemma {:induction false} FlattenAt(rows: seq<seq<Cell>>, k: nat)
    requires forall j :: 0 <= j < |rows| ==> |rows[j]| == 3
    requires k < |rows|
    ensures var cells := Flatten(rows);
      cells[3 * k] == rows[k][0] && cells[3 * k + 1] == rows[k][1] && cells[3 * k + 2] == rows[k][2]
  {
    if k > 0 {
      FlattenAt(rows[1..], k - 1);
      assert rows[1..][k - 1] == rows[k];
      var rest := Flatten(rows[1..]);
      assert Flatten(rows) == rows[0] + rest;
      assert 3 * k == 3 + 3 * (k - 1);
    }
  }

  /** The table cells of a listing of `files`, one row per record. */
  function Render(base: string, files: seq<RemoteFile>): (cells: seq<Cell>)
    requires forall f :: f in files ==> Listable(base, f)
    ensures |cells| == 3 * |files|
  {
    Flatten(seq(|files|, k requires 0 <= k < |files| => RenderRow(base, files[k])))
  }

  /** Row `k` of a listing holds the cells of record `k`. */
  lemma RenderAt(base: string, files: seq<RemoteFile>, k: nat)
    requires forall f :: f in files ==> Listable(base, f)
    requires k < |files|
    ensures var cells, row := Render(base, files), RenderRow(base, files[k]);
      cells[3 * k] == row[0] && cells[3 * k + 1] == row[1] && cells[3 * k + 2] == row[2]
  {
    var rows := seq(|files|, j requires 0 <= j < |files| => RenderRow(base, files[j]));
    FlattenAt(rows, k);
  }

  /** The printed size of a record is trimmed, is `-` only when there is no
      size, and reads back as the size. */
  lemma SizeCellReadBack(size: Option<FileSize>)
    requires size.Some? ==> PrintableSize(size.value)
    ensures Trim(SizeCellText(size)) == SizeCellText(size)
    ensures SizeCellText(size) == "-" <==> size.None?
    ensures ParseSize(SizeCellText(size)) == Success(size)
  {
    if size.Some? {
      var f := size.value;
      var text := SizeText(f);
      FloatLiteralEdges(f.num);
      ParseSizeText(f);
      if !f.B? {
        assert text[0] == f.num[0];
      }
      TrimClean(text);
    } else {
      TrimClean("-");
    }
  }

  /** The printed time of a record is trimmed and reads back as the time. */
  lemma ModifiedReadBack(t: Option<ListingTime.DateTime>)
    requires t.Some? ==> ListingTime.Valid(t.value) && 0 <= t.value.year <= 9999
    ensures Trim(ModifiedText(t)) == ModifiedText(t)
    ensures DecodeModified(ModifiedText(t)) == Success(t)
  {
    if t.Some? {
      ListingTime.FormatReadBack(t.value);
    }
  }

  /** A row whose cells are already trimmed, whose name is not the parent
      row's, and whose three fields each read back as `f`'s, decodes to `f`. */
  lemma DecodeTrimmedRow(base: string, origin: Option<Origin>, name: Cell, modified: Cell, size: Cell, f: RemoteFile)
    requires Trim(name.text) == name.text && base + name.text == f.url && !IsParentRow(name.text, size.text)
    requires Trim(modified.text) == modified.text && DecodeModified(modified.text) == Success(f.lastModified)
    requires Trim(size.text) == size.text && ParseSize(size.text) == Success(f.size)
    ensures DecodeRow(base, origin, name, modified, size) == Success(f)
  {
  }

  /** Each cell of a printed row is trimmed and reads back as its field of
      the record; the row is not the parent row. */
  lemma RenderRowReadBack(base: string, f: RemoteFile)
    requires Listable(base, f)
    ensures var row := RenderRow(base, f);
      && Trim(row[0].text) == row[0].text && !IsParentRow(row[0].text, row[2].text)
      && Trim(row[1].text) == row[1].text && DecodeModified(row[1].text) == Success(f.lastModified)
      && Trim(row[2].text) == row[2].text && ParseSize(row[2].text) == Success(f.size)
  {
    TrimClean(f.url[|base|..]);
    SizeCellReadBack(f.size);
    ModifiedReadBack(f.lastModified);
  }

  /** Crawling the server's listing of records gives back those records, in
      order, whatever the base URL parses to. */
  lemma CrawlRender(base: string, origin: Option<Origin>, files: seq<RemoteFile>)
    requires forall f :: f in files ==> Listable(base, f)
    ensures CrawlRows(base, origin, Render(base, files)) == Success(files)
  {
    var cells := Render(base, files);
    forall k | 0 <= k < |files|
      ensures RowAt(base, origin, cells, k) == Success(files[k])
    {
      RenderAt(base, files, k);
      RenderRowReadBack(base, files[k]);
      DecodeTrimmedRow(base, origin, cells[3 * k], cells[3 * k + 1], cells[3 * k + 2], files[k]);
    }
    CrawlRowsSuccess(base, origin, cells, files);
  }
}
