# nws-api-rs core, modelled in Dafny

nws-api-rs is a blocking Rust client for the US National Weather Service API
(`https://api.weather.gov`) and for the MRMS directory of level-2 radar files.
This project models the parts of the client that are logic rather than I/O,
and proves what they promise:

- **The radar listing decoder** (`src/endpoints/radar.rs`), in `radar.dfy`:
  - The product codes of `RadarType`: their display strings, `Serialize` and `values()`.
  - `FileSize::new`, the suffix classifier for the size column.
  - `RemoteFile::new`.
  - `crawl`. It walks the `<td>` cells of an Apache-style index page three at a time (name, modified, size). For each row it resolves the URL, with the special rule for the `Parent Directory` row, decodes the `%d-%b-%Y %H:%M` timestamp, and decodes the size. The HTML step is abstracted: the page is the sequence of cells, each with its text and the `href` of its first child. `Crawl` is an imperative walk over the cells, proved equal to a recursive specification `CrawlRows`. Every panic of the Rust code (an out-of-bounds index, an `unwrap` of `None` or `Err`) is a `Fault` value in a `Result`.
- **Request construction** (`src/lib.rs`), in `client.dfy`:
  - `ROOT` prefixing and the JSON-LD headers of `get`.
  - The `limit` clamp to [1, 500].
  - The query lists that `stations_observations`, `stations` and `stations_observations_latest` build by conditional `push`.
  - The endpoint paths.
  - The radar base URL handed to `crawl`.
- **`deserialize_force_usize`** (`src/endpoints/mod.rs`), in `endpoints.dfy`, over a model of `serde_json::Value` in `json.dfy`.
- **Supporting behaviour of Rust's standard library and of chrono**, modelled as far as the core depends on it:
  - `str::trim`, `usize` parsing and display, the grammar `f64::from_str` accepts and `join`, in `strings.dfy`, which also defines `split` as the inverse of `join` for the round-trip lemmas;
  - the `%d-%b-%Y %H:%M` parse, in `listing_time.dfy`.

`wrappers.dfy` holds the `Option` and `Result` types.

Partners proved for each operation:
- display and decode of product codes;
- size text and `FileSize::new`;
- timestamp formatting and parsing;
- rendering a listing and crawling it back;
- building a grid-point or radar path and reading it back;
- each query list against its reference function `Query`.

Three behaviours of the code a caller might not expect; the model follows the code:
- A page whose cell count is not a multiple of three makes `crawl` panic: indexing `select[i + 1]` or `select[i + 2]` runs past the end. It does not drop the partial row. `CrawlFromPartial` states the outcome, `IndexOutOfBounds(|cells|, |cells|)`.
- A size with an unknown unit letter whose number parses, such as `3.2Q`, gives `None`, not an error (`ParseSizeUnknownExample`). When the number in front of an unknown unit does not parse, `unwrap` panics first (`ParseSizeUnknownUnit`); so it does for a known unit, as in `1.2.3M` (`ParseSizeJunk`).
- A page with no cells gives an empty list of files, not an error: the loop runs no step (`CrawlRowsSuccess` with no files).

## Model

| member | source | states |
|---|---|---|
| Radar.Display | src/endpoints/radar.rs:29-48 | each product code is 4 to 8 characters of upper-case letters and `_` |
| Radar.DecodeDisplay | src/endpoints/radar.rs:29-48 | decoding a product's display string gives back the product |
| Radar.DisplayInjective | src/endpoints/radar.rs:29-48 | two products have the same display string if and only if they are the same product |
| Radar.Decode | src/endpoints/radar.rs:29-48 | a decoded string is the display string of the product it decodes to |
| Radar.Serialize | src/endpoints/radar.rs:50-54 | serialising emits a JSON string holding exactly the display string, and that string decodes to the product |
| Radar.Values | src/endpoints/radar.rs:56-59 | `values()` has 14 entries, entry `i` is the product declared `i`-th, and every product sits at its declaration index |
| Radar.ParseSize | src/endpoints/radar.rs:71-90 | `""` and `"-"` give `None`; a non-ASCII last character panics; a digit last gives `B` of the whole text, or panics when the text is not a float literal; any other ASCII last character panics when the rest is not a float literal, and otherwise gives `K`, `M` or `G` of the rest for those letters and `None` for any other; a parsed size prints back as exactly the input text; every failure is `BadSize(text)` |
| Radar.ParseSizeText | src/endpoints/radar.rs:71-90 | a printable size, printed and parsed again, is the same size, unit and number |
| Radar.ParseSizeUnknownUnit | src/endpoints/radar.rs:79-89 | an upper-case unit other than K, M and G gives `None` when the number parses and a fault when it does not |
| Radar.ParseSizeKilo | src/endpoints/radar.rs:79-84 | `1.5K` gives `K(1.5)` |
| Radar.ParseSizeBytes | src/endpoints/radar.rs:76-77 | `200` gives `B(200)` from the whole text |
| Radar.ParseSizeUnknownExample | src/endpoints/radar.rs:89 | `3.2Q` gives `None`, not an error |
| Radar.ParseSizeJunk | src/endpoints/radar.rs:79 | `1.2.3M` panics in the number parse |
| Radar.ResolveUrl | src/endpoints/radar.rs:125-130 | a parent row (name `Parent Directory` and size `-`) with a parsed base and a link gets exactly scheme, `://`, host and the link's `href`; it faults when the base has no scheme and host and when the cell has no link; any other row's URL is the base followed by the name |
| Radar.DecodeModified | src/endpoints/radar.rs:132-136 | empty text if and only if no time; otherwise the `%d-%b-%Y %H:%M` parse, or a `BadTimestamp` fault exactly when the parse fails |
| Radar.DecodeRow | src/endpoints/radar.rs:121-138 | a row decodes if and only if its URL, time and size decode, from the trimmed cell texts; the record holds exactly those three values, as `RemoteFile::new` stores them; a failing row fails with the URL's fault, else the time's, else the size's, in the order the source evaluates them |
| Radar.CrawlFrom | src/endpoints/radar.rs:120-139 | reference definition of the loop from cell `i`: no cells left gives no records; a partial row faults at the first missing index, which is the cell count; a faulty row stops the crawl with its fault; otherwise its record comes before the records of the rest |
| Radar.CrawlRows | src/endpoints/radar.rs:119-141 | the crawl of a whole page: the reference walk from cell 0 with the row decoder for the base URL and its origin |
| Radar.Walk | src/endpoints/radar.rs:110-141 | the loop over the cells, stepping by three and pushing one record per row, returns the recursive crawl of the page |
| Radar.Crawl | src/endpoints/radar.rs:108-142 | `crawl` on a fetched page returns `CrawlRows` for its cells |
| Radar.CrawlFromSuccess | src/endpoints/radar.rs:120-141 | the crawl succeeds with `files` if and only if there are exactly three cells per record and row `k` decodes to record `k` |
| Radar.CrawlRowsSuccess | src/endpoints/radar.rs:120-141 | the same, for the whole page: one record per group of three cells, in cell order, and nothing else |
| Radar.CrawlFromPartial | src/endpoints/radar.rs:120-123 | a cell count that is not a multiple of three, with every complete row decodable, panics with the index out of bounds |
| Radar.CrawlFromFault | src/endpoints/radar.rs:120-138 | the first row that faults decides the outcome: the crawl fails with that row's fault |
| Radar.PrependConcat | src/endpoints/radar.rs:138 | pushing records one at a time is the same as pushing them all, so the pushed vector is the records in order |
| Radar.SizeCellReadBack | src/endpoints/radar.rs:73-90 | a printed size cell is trimmed, is `-` exactly when there is no size, and parses back as the size |
| Radar.ModifiedReadBack | src/endpoints/radar.rs:132-136 | a printed time cell is trimmed and decodes back as the time |
| Radar.RenderRowReadBack | src/endpoints/radar.rs:121-138 | every cell of a listed record's row is trimmed, the row is not a parent row, and its time and size cells decode to the record's fields |
| Radar.DecodeTrimmedRow | src/endpoints/radar.rs:121-138 | trimmed cells whose name extends the base and whose time and size decode give exactly that record |
| Radar.RenderAt | src/endpoints/radar.rs:119-123 | cells `3k`, `3k+1`, `3k+2` of a listing are the name, time and size of record `k` |
| Radar.CrawlRender | src/endpoints/radar.rs:108-142 | crawling the listing of any records that a page can list gives back exactly those records, in order |
| ListingTime.Parse | src/endpoints/radar.rs:135 | a parsed timestamp is a valid Gregorian date and time, with a year from 0 to 9999 |
| ListingTime.ParseFormat | src/endpoints/radar.rs:135 | a timestamp written in `%d-%b-%Y %H:%M` form parses back as the same timestamp |
| ListingTime.FormatReadBack | src/endpoints/radar.rs:132-135 | a written timestamp is not empty, is unchanged by trimming, and parses back |
| ListingTime.MonthOfAbbrev | src/endpoints/radar.rs:135 | each month's three-letter abbreviation reads back as that month |
| ListingTime.ParseExample | src/endpoints/radar.rs:135 | `12-Jan-2024 08:30` is 08:30 on 12 January 2024 |
| ListingTime.ParseRejectsIsoDate | src/endpoints/radar.rs:135 | `2024-01-12` does not match the pattern, so `crawl` panics on it |
| Strings.Trim | src/endpoints/radar.rs:121-123 | the trimmed text is a slice of the input, only whitespace was removed on each side, and it neither starts nor ends with whitespace |
| Strings.ParseUsize | src/endpoints/mod.rs:44 | `usize::from_str`: an optional `+` then one or more ASCII digits whose value fits in 64 bits; an accepted text is not empty, has no `-` and does not end in `+`, and its value is at most `usize::MAX` |
| Strings.NatToDecimal | src/lib.rs:53 | `usize`'s `Display`: non-empty ASCII digits whose value is the number, with no leading zero |
| Strings.DecimalRoundTrip | src/endpoints/mod.rs:44-45 | the decimal numeral of a `usize`, with or without a leading `+`, parses back as that number |
| Strings.IsFloatLiteral | src/endpoints/radar.rs:77-79 | the texts `f64::from_str` accepts: an optional sign, then digits with at most one `.` and at least one digit, with an optional `e`/`E` exponent of an optional sign and digits; or `inf`, `infinity`, `nan` in any ASCII case |
| Strings.FloatLiteralEdges | src/endpoints/radar.rs:77-79 | a number `f64::from_str` accepts neither starts nor ends with whitespace, so a trimmed size cell keeps it whole |
| Strings.Join | src/lib.rs:86-87 | `join(",")`: the pieces in order with the separator between each two, the empty string for no pieces |
| Strings.SplitJoin | src/lib.rs:86-87 | splitting pieces joined by a separator that none contains gives back the pieces |
| Client.Get | src/lib.rs:107-113 | every request URL is `ROOT` followed by the endpoint; the headers are the two JSON-LD headers; the query is exactly the given params |
| Client.GetInjective | src/lib.rs:14 | different endpoints give different request URLs |
| Client.ClampLimit | src/lib.rs:64 | the clamp always lies in [1, 500], is the identity inside it, 500 above it and 1 for 0 |
| Client.LimitText | src/lib.rs:64 | a limit is sent if and only if given, and its text parses as the clamped limit |
| Client.Lookup | src/lib.rs:61-64 | a key has no value exactly when it is not among the query's keys |
| Client.ChosenIsSubsequence | src/lib.rs:61-64 | the keys chosen by flags are a subsequence of all the keys, in order |
| Client.QueryShape | src/lib.rs:61-64 | a conditional query holds the keys of the given arguments, in order, as a subsequence; each key maps to its argument; with no arguments the list is empty |
| Client.StationsObservations | src/lib.rs:60-67 | `stations_observations` requests `/stations/{id}/observations` with the query built from `start`, `end` and the clamped `limit`, always `Some` |
| Client.StationsObservationsQuery | src/lib.rs:61-64 | its query keys are a subsequence of start, end, limit, with each key present if and only if its argument is, and the list is empty but still sent when none is |
| Client.Stations | src/lib.rs:84-91 | `stations` requests `/stations` with the query built from the joined ids, the joined states and the clamped limit |
| Client.StationsQuery | src/lib.rs:85-88 | its query keys are a subsequence of id, state, limit, present exactly for the given arguments, with `id` and `state` the `,`-joined lists |
| Client.JoinedListRoundTrip | src/lib.rs:86-87 | a `,`-joined list of names with no comma splits back into the names |
| Client.BoolText | src/lib.rs:72 | a flag is written `true` or `false`, `true` exactly when set |
| Client.StationsObservationsLatest | src/lib.rs:69-76 | `stations_observations_latest` sends no query when `require_qc` is absent and otherwise exactly the pair `require_qc` with the flag's text |
| Client.StationsId | src/lib.rs:93-95 | `stations_id` requests `/stations/{id}` with no query |
| Client.StationsObservationsTime | src/lib.rs:78-82 | `stations_observations_time` requests `/stations/{id}/observations/{time}` with no query |
| Client.Gridpoints | src/lib.rs:52-54 | `gridpoints` requests `/gridpoints/{id}/{x},{y}` with no query |
| Client.GridpointsStations | src/lib.rs:56-58 | `gridpoints_stations` requests the same path followed by `/stations`, with no query |
| Client.CoordinatesRoundTrip | src/lib.rs:53 | the `x,y` part has no `/` and splits at `,` into the two numerals |
| Client.GridpointPathRoundTrip | src/lib.rs:52-54 | a grid-point path reads back as its office and coordinates, for an office with no `/` |
| Client.GridpointStationsPathRoundTrip | src/lib.rs:56-58 | a grid-point stations path reads back as its office and coordinates, marked as a stations path |
| Client.RadarBase | src/lib.rs:102-104 | the radar base URL starts with the MRMS level-2 directory and always ends with `/`, as the concatenation in `crawl` needs |
| Client.RadarBaseRoundTrip | src/lib.rs:103 | the radar base URL reads back as its site and its product, for a site with no `/` |
| Client.RadarFiles | src/lib.rs:102-104 | `radar` crawls the base URL of the site and product, whose scheme and host are those of the MRMS server |
| Endpoints.DeserializeForceUsize | src/endpoints/mod.rs:41-55 | a string decodes exactly when it parses as a `usize`, to that value, else "Failed to parse string into u64"; a number decodes exactly when it is a non-negative integer, to that value, else "Failed to parse number into u64"; any other kind fails with "Failed to parse value into u64"; a deserialisation error is passed on unchanged |
| Endpoints.ForceUsizeRoundTrip | src/endpoints/mod.rs:44-49 | a `usize` as a JSON number, as its numeral, or as its numeral with `+` decodes to itself |
| Endpoints.ForceUsizeRejectsSigned | src/endpoints/mod.rs:46-50 | negative and fractional numbers, `-`-prefixed strings and the empty string are rejected with the matching message |

## Left out

- HTTP transport is not modelled: sending requests, reading response bodies, `NwsClient::new` and `parse_result` (src/lib.rs:43-50, 107-134, src/endpoints/radar.rs:112-116). A request is a value (`Client.Request`), and `crawl` starts from the fetched page.
- HTML parsing with the `select` crate is replaced by its result: the `<td>` children of `<tr>`, in document order, each with its text and the `href` of its first child.
- URL parsing with the `url` crate is replaced by the scheme and host it reports (`Radar.Origin`). It is absent both for a base that does not parse and for one that parses without a host; both panic in the source and give `BadBaseUrl`. `radar` passes the fixed MRMS origin.
- `Radar.ParseSize`: `FileSize` carries the number as the literal text Rust's `f64` parser accepts, not as an `f64`. Float rounding and the numeric value are left out.
- `ListingTime.Parse`: chrono's `%d-%b-%Y %H:%M` parse is modelled strictly. Fields are 1-2 digit day, hour and minute, a case-insensitive English month abbreviation, and a 1-4 digit year, with single literal separators and Gregorian validity. chrono's tolerance of missing or extra whitespace where the pattern has a space and of whitespace before any numeric field (day, year, hour, minute), so that `12-Jan- 2024 08:30` parses in the source but faults in the model, and signed and wider years, and the conversion to UTC are left out.
- `Client.StationsObservations`, `Client.StationsObservationsTime`: timestamps are passed in as their text. The `DATETIME_FMT` formatting of `DateTime<Utc>` belongs to chrono and is left out.
- `points` is left out: it formats `f64` coordinates with `{:.4}`.
- WKT serialisation, the serde record structs and `QuantitativeValue` are left out: they are field mappings with no logic. So are the `From` error conversions.
- `usize` is taken to be 64 bits wide, so `deserialize_force_usize`'s `as usize` cast never truncates.
- A `Parent Directory` name whose first child is missing and one whose `href` attribute is missing both panic in the source. The model reports both as `MissingHref`.
