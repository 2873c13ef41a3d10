/** Ingestion of BMKG bulletins (server/src/services/bmkgService.ts): each record is
    normalised into a row keyed by a derived id and written with INSERT OR REPLACE;
    each of the three feeds appends one entry to the fetch log. */
module BmkgService {
  import opened Wrappers

  const BmkgBaseUrl: string := "https://data.bmkg.go.id"

  /** The unit suffix removed from `Kedalaman` before parsing the depth. */
  const DepthUnit: string := " km"

  /** What V8 reports when `response.data.Infogempa` is missing. */
  const MissingInfogempaMessage: string := "Cannot read properties of undefined (reading 'gempa')"

  /** One bulletin record as BMKG sends it. `None` marks a property absent from the
      JSON object; `Coordinates` is `"lat,lon"`, `Kedalaman` is e.g. `"10 km"`. */
  datatype BmkgRecord = BmkgRecord(
    tanggal: string,
    jam: string,
    dateTime: string,
    coordinates: Option<string>,
    magnitude: string,
    kedalaman: Option<string>,
    wilayah: string,
    potensi: Option<string>,
    dirasakan: Option<string>,
    shakemap: Option<string>)

  /** `Infogempa.gempa`: missing, one object, or an array. */
  datatype Gempa = Absent | Single(record: BmkgRecord) | List(records: seq<BmkgRecord>)

  /** The result of one HTTP GET: a rejected request with the error's message, or a
      JSON body that may lack the `Infogempa` object. */
  datatype HttpOutcome = RequestFailed(message: string) | Received(infogempa: Option<Gempa>)

  /** The JavaScript conversions the service relies on, kept abstract: `parseFloat`
      (`None` is `NaN`), number-to-string for finite numbers, `new Date(s).getTime()`
      (`None` is `NaN`) and the template-literal text of a `gempa` value. */
  datatype Runtime = Runtime(
    parseFloat: string -> Option<real>,
    numberText: real -> string,
    parseDate: string -> Option<int>,
    gempaText: Gempa -> string)

  /** A row of the `earthquakes` table; `None` numbers are `NaN`, `None` strings `null`. */
  datatype Row = Row(
    id: string,
    datetime: string,
    timestamp: Option<int>,
    magnitude: Option<real>,
    depth: Option<real>,
    latitude: Option<real>,
    longitude: Option<real>,
    region: string,
    tsunamiPotential: Option<string>,
    feltStatus: Option<string>,
    shakemapUrl: Option<string>)

  /** The `TypeError` raised when a property the parser calls a method on is absent. */
  datatype ParseFailure = MissingField(name: string)

  /** A row of the `fetch_logs` table. */
  datatype LogEntry = LogEntry(fetchType: string, status: string, message: string)

  /** `s.split(",")` */
  function SplitComma(s: string): (parts: seq<string>)
    ensures |parts| >= 1
    ensures forall p :: p in parts ==> ',' !in p
  {
    if s == [] then [""]
    else
      var rest := SplitComma(s[1..]);
      if s[0] == ',' then [""] + rest
      else [[s[0]] + rest[0]] + rest[1..]
  }

  /** `parts.join(",")` */
  function JoinComma(parts: seq<string>): string
    requires |parts| >= 1
  {
    if |parts| == 1 then parts[0] else parts[0] + "," + JoinComma(parts[1..])
  }

  /** Splitting loses nothing: joining the pieces gives back the text. */
  lemma {:induction false} JoinSplitComma(s: string)
    ensures JoinComma(SplitComma(s)) == s
  {
    if s != [] {
      JoinSplitComma(s[1..]);
      var rest := SplitComma(s[1..]);
      if s[0] == ',' {
        assert SplitComma(s) == [""] + rest;
        assert ([""] + rest)[1..] == rest;
        assert s == "," + s[1..];
      } else {
        var parts := [[s[0]] + rest[0]] + rest[1..];
        assert SplitComma(s) == parts;
        if |rest| == 1 {
          assert s == [s[0]] + rest[0];
        } else {
          assert parts[1..] == rest[1..];
          assert JoinComma(rest) == rest[0] + "," + JoinComma(rest[1..]);
          assert s == [s[0]] + JoinComma(rest);
        }
      }
    }
  }

  /** The first piece is the text before the first comma. */
  lemma {:induction false} SplitAtFirstComma(a: string, b: string)
    requires ',' !in a
    ensures SplitComma(a + "," + b) == [a] + SplitComma(b)
  {
    if a == [] {
      assert a + "," + b == [','] + b;
      assert ([','] + b)[1..] == b;
    } else {
      assert (a + "," + b)[1..] == a[1..] + "," + b;
      SplitAtFirstComma(a[1..], b);
      assert a == [a[0]] + a[1..];
    }
  }

  lemma {:induction false} SplitWithoutComma(a: string)
    requires ',' !in a
    ensures SplitComma(a) == [a]
  {
    if a != [] {
      SplitWithoutComma(a[1..]);
      assert a == [a[0]] + a[1..];
    }
  }

  predicate OccursAt(s: string, pat: string, i: nat)
  {
    i + |pat| <= |s| && s[i..i + |pat|] == pat
  }

  /** The first position at or after `from` where `pat` occurs in `s`. */
  function FindFrom(s: string, pat: string, from: nat): (r: Option<nat>)
    ensures r.None? ==> forall j: nat :: from <= j ==> !OccursAt(s, pat, j)
    ensures r.Some? ==> from <= r.value && OccursAt(s, pat, r.value)
    ensures r.Some? ==> forall j: nat :: from <= j < r.value ==> !OccursAt(s, pat, j)
    decreases |s| - from
  {
    if from + |pat| > |s| then None
    else if s[from..from + |pat|] == pat then Some(from)
    else FindFrom(s, pat, from + 1)
  }

  /** `s.replace(pat, "")` with a string pattern: only the FIRST occurrence is removed. */
  function RemoveFirst(s: string, pat: string): (r: string)
    ensures (forall i: nat :: !OccursAt(s, pat, i)) ==> r == s
    ensures forall i: nat :: OccursAt(s, pat, i) && (forall j: nat :: j < i ==> !OccursAt(s, pat, j)) ==>
              r == s[..i] + s[i + |pat|..]
  {
    match FindFrom(s, pat, 0)
    case None => s
    case Some(i) => s[..i] + s[i + |pat|..]
  }

  /** A depth text `d + " km"` with no space in `d` parses as `d`. */
  lemma DepthUnitRemoved(d: string)
    requires ' ' !in d
    ensures RemoveFirst(d + DepthUnit, DepthUnit) == d
  {
    var s := d + DepthUnit;
    assert OccursAt(s, DepthUnit, |d|) by {
      assert s[|d|..|d| + 3] == DepthUnit;
    }
    forall j: nat | j < |d| ensures !OccursAt(s, DepthUnit, j) {
      assert s[j] == d[j];
    }
    assert s[..|d|] == d;
  }

  /** The JavaScript `\s` class. */
  predicate IsRegexSpace(c: char)
  {
    c == ' ' || c == '\t' || c == '\n' || c == '\U{000B}' || c == '\U{000C}' || c == '\r'
    || c == '\U{00A0}' || c == '\U{1680}' || '\U{2000}' <= c <= '\U{200A}'
    || c == '\U{2028}' || c == '\U{2029}' || c == '\U{202F}' || c == '\U{205F}'
    || c == '\U{3000}' || c == '\U{FEFF}'
  }

  /** The characters matched by `/[:\s]/g`. */
  predicate IsIdSeparator(c: char)
  {
    c == ':' || IsRegexSpace(c)
  }

  /** `s.replace(/[:\s]/g, "_")` */
  function ReplaceSeparators(s: string): (r: string)
    ensures |r| == |s|
    ensures forall c :: c in r ==> !IsIdSeparator(c)
    ensures forall i :: 0 <= i < |s| && !IsIdSeparator(s[i]) ==> r[i] == s[i]
    ensures forall i :: 0 <= i < |s| && IsIdSeparator(s[i]) ==> r[i] == '_'
  {
    seq(|s|, i requires 0 <= i < |s| => if IsIdSeparator(s[i]) then '_' else s[i])
  }

  /** A number in a template literal: `NaN` prints as "NaN". */
  function NumberText(x: Option<real>, rt: Runtime): string
  {
    match x
    case None => "NaN"
    case Some(v) => rt.numberText(v)
  }

  /** The row id: `${DateTime}_${latitude}_${longitude}` with every `:` and white-space
      character replaced by `_`. */
  function EventId(dateTime: string, latitude: Option<real>, longitude: Option<real>, rt: Runtime): (id: string)
    ensures ':' !in id && forall c :: c in id ==> !IsRegexSpace(c)
    ensures |id| == |dateTime| + |NumberText(latitude, rt)| + |NumberText(longitude, rt)| + 2
  {
    ReplaceSeparators(dateTime + "_" + NumberText(latitude, rt) + "_" + NumberText(longitude, rt))
  }

  /** `x || null` on an optional text: absent and empty both become `null`. */
  function Present(x: Option<string>): (r: Option<string>)
    ensures r.Some? <==> x.Some? && x.value != ""
    ensures r.Some? ==> r == x
  {
    if x.Some? && x.value != "" then x else None
  }

  /** The parsing part of `parseAndInsertEarthquake`: the row it would insert, or the
      `TypeError` thrown when `Coordinates` or `Kedalaman` is absent. */
  function Normalize(rec: BmkgRecord, rt: Runtime): (r: Result<Row, ParseFailure>)
    ensures rec.coordinates.None? ==> r == Failure(MissingField("Coordinates"))
    ensures rec.coordinates.Some? && rec.kedalaman.None? ==> r == Failure(MissingField("Kedalaman"))
    ensures r.Success? <==> rec.coordinates.Some? && rec.kedalaman.Some?
    ensures r.Success? ==>
      var parts := SplitComma(rec.coordinates.value);
      && r.value.latitude == rt.parseFloat(parts[0])
      && r.value.longitude == (if |parts| >= 2 then rt.parseFloat(parts[1]) else None)
    ensures r.Success? ==>
      && r.value.id == EventId(rec.dateTime, r.value.latitude, r.value.longitude, rt)
      && r.value.magnitude == rt.parseFloat(rec.magnitude)
      && r.value.depth == rt.parseFloat(RemoveFirst(rec.kedalaman.value, DepthUnit))
      && r.value.timestamp == rt.parseDate(rec.dateTime)
      && r.value.datetime == rec.tanggal + " " + rec.jam
      && r.value.region == rec.wilayah
      && r.value.tsunamiPotential == Present(rec.potensi)
      && r.value.feltStatus == Present(rec.dirasakan)
      && (r.value.tsunamiPotential.Some? <==> rec.potensi.Some? && rec.potensi.value != "")
      && (r.value.feltStatus.Some? <==> rec.dirasakan.Some? && rec.dirasakan.value != "")
      && (r.value.shakemapUrl.Some? <==> rec.shakemap.Some? && rec.shakemap.value != "")
      && (r.value.shakemapUrl.Some? ==> r.value.shakemapUrl.value == BmkgBaseUrl + "/" + rec.shakemap.value)
  {
    match rec.coordinates
    case None => Failure(MissingField("Coordinates"))
    case Some(text) =>
      var coords := SplitComma(text);
      var latitude := rt.parseFloat(coords[0]);
      var longitude := if |coords| >= 2 then rt.parseFloat(coords[1]) else None;
      match rec.kedalaman
      case None => Failure(MissingField("Kedalaman"))
      case Some(depthText) =>
        var magnitude := rt.parseFloat(rec.magnitude);
        var depth := rt.parseFloat(RemoveFirst(depthText, DepthUnit));
        var shakemap := Present(rec.shakemap);
        Success(Row(
          EventId(rec.dateTime, latitude, longitude, rt),
          rec.tanggal + " " + rec.jam,
          rt.parseDate(rec.dateTime),
          magnitude,
          depth,
          latitude,
          longitude,
          rec.wilayah,
          Present(rec.potensi),
          Present(rec.dirasakan),
          if shakemap.Some? then Some(BmkgBaseUrl + "/" + shakemap.value) else None))
  }

  /** Latitude is parsed from the text before the comma and longitude from the text
      after it. */
  lemma CoordinatesParsed(rec: BmkgRecord, rt: Runtime, lat: string, lon: string)
    requires rec.coordinates == Some(lat + "," + lon) && rec.kedalaman.Some?
    requires ',' !in lat && ',' !in lon
    ensures Normalize(rec, rt).Success?
    ensures Normalize(rec, rt).value.latitude == rt.parseFloat(lat)
    ensures Normalize(rec, rt).value.longitude == rt.parseFloat(lon)
  {
    SplitAtFirstComma(lat, lon);
    SplitWithoutComma(lon);
  }

  /** A well-formed record — `Coordinates "lat,lon"`, `Kedalaman "<d> km"` — yields the
      numbers parsed from `lat`, `lon`, `d` and `Magnitude`. */
  lemma WellFormedRecord(rec: BmkgRecord, rt: Runtime, lat: string, lon: string, d: string)
    requires rec.coordinates == Some(lat + "," + lon) && ',' !in lat && ',' !in lon
    requires rec.kedalaman == Some(d + DepthUnit) && ' ' !in d
    ensures Normalize(rec, rt).Success?
    ensures var row := Normalize(rec, rt).value;
      && row.latitude == rt.parseFloat(lat) && row.longitude == rt.parseFloat(lon)
      && row.depth == rt.parseFloat(d) && row.magnitude == rt.parseFloat(rec.magnitude)
  {
    CoordinatesParsed(rec, rt, lat, lon);
    DepthUnitRemoved(d);
  }

  /** The effect of `parseAndInsertEarthquake` on the table: a record that fails to
      parse, or whose row the schema rejects, leaves it unchanged; otherwise the row
      under its id is replaced and every other row stays. */
  function Ingest(rows: map<string, Row>, rec: BmkgRecord, rt: Runtime, violatesSchema: Row -> bool): (r: map<string, Row>)
    ensures Normalize(rec, rt).Failure? ==> r == rows
    ensures Normalize(rec, rt).Success? && violatesSchema(Normalize(rec, rt).value) ==> r == rows
    ensures Normalize(rec, rt).Success? && !violatesSchema(Normalize(rec, rt).value) ==>
      var row := Normalize(rec, rt).value;
      && r.Keys == rows.Keys + {row.id}
      && r[row.id] == row
      && forall k :: k in rows && k != row.id ==> r[k] == rows[k]
  {
    match Normalize(rec, rt)
    case Failure(_) => rows
    case Success(row) => if violatesSchema(row) then rows else rows[row.id := row]
  }

  /** Upserting the same record twice leaves the table as upserting it once. */
  lemma IngestIdempotent(rows: map<string, Row>, rec: BmkgRecord, rt: Runtime, violatesSchema: Row -> bool)
    ensures Ingest(Ingest(rows, rec, rt, violatesSchema), rec, rt, violatesSchema) == Ingest(rows, rec, rt, violatesSchema)
  {
  }

  /** Two bulletins with the same `DateTime` and the same parsed coordinates share an
      id, whichever feed reported them; ingesting both keeps one row, the later one. */
  lemma SameEventCollapses(rows: map<string, Row>, a: BmkgRecord, b: BmkgRecord, rt: Runtime, violatesSchema: Row -> bool)
    requires Normalize(a, rt).Success? && Normalize(b, rt).Success?
    requires a.dateTime == b.dateTime
    requires Normalize(a, rt).value.latitude == Normalize(b, rt).value.latitude
    requires Normalize(a, rt).value.longitude == Normalize(b, rt).value.longitude
    requires !violatesSchema(Normalize(b, rt).value)
    ensures Normalize(a, rt).value.id == Normalize(b, rt).value.id
    ensures Ingest(Ingest(rows, a, rt, violatesSchema), b, rt, violatesSchema) == Ingest(rows, b, rt, violatesSchema)
    ensures Ingest(Ingest(rows, a, rt, violatesSchema), b, rt, violatesSchema).Keys == rows.Keys + {Normalize(b, rt).value.id}
  {
  }

  /** The table after records `recs` are processed in order (`forEach`). */
  function IngestAll(rows: map<string, Row>, recs: seq<BmkgRecord>, rt: Runtime, violatesSchema: Row -> bool): map<string, Row>
    decreases |recs|
  {
    if recs == [] then rows
    else IngestAll(Ingest(rows, recs[0], rt, violatesSchema), recs[1..], rt, violatesSchema)
  }

  lemma {:induction false} IngestAllAppend(rows: map<string, Row>, a: seq<BmkgRecord>, b: seq<BmkgRecord>, rt: Runtime, violatesSchema: Row -> bool)
    ensures IngestAll(rows, a + b, rt, violatesSchema) == IngestAll(IngestAll(rows, a, rt, violatesSchema), b, rt, violatesSchema)
    decreases |a|
  {
    if a == [] {
      assert a + b == b;
    } else {
      assert (a + b)[1..] == a[1..] + b;
      IngestAllAppend(Ingest(rows, a[0], rt, violatesSchema), a[1..], b, rt, violatesSchema);
    }
  }

  /** Processing a batch overlays the rows it writes on the old table: rows whose ids
      the batch does not produce are untouched. */
  lemma {:induction false} IngestAllOverlays(rows: map<string, Row>, recs: seq<BmkgRecord>, rt: Runtime, violatesSchema: Row -> bool)
    ensures IngestAll(rows, recs, rt, violatesSchema) == rows + IngestAll(map[], recs, rt, violatesSchema)
    decreases |recs|
  {
    if recs != [] {
      var first := Ingest(rows, recs[0], rt, violatesSchema);
      var firstAlone := Ingest(map[], recs[0], rt, violatesSchema);
      IngestAllOverlays(first, recs[1..], rt, violatesSchema);
      IngestAllOverlays(firstAlone, recs[1..], rt, violatesSchema);
      var later := IngestAll(map[], recs[1..], rt, violatesSchema);
      assert first == rows + firstAlone;
      assert (rows + firstAlone) + later == rows + (firstAlone + later);
    }
  }

  /** Ingesting a batch twice gives the same table as ingesting it once, even when the
      batch holds several records with one id. */
  lemma IngestAllIdempotent(rows: map<string, Row>, recs: seq<BmkgRecord>, rt: Runtime, violatesSchema: Row -> bool)
    ensures IngestAll(IngestAll(rows, recs, rt, violatesSchema), recs, rt, violatesSchema) == IngestAll(rows, recs, rt, violatesSchema)
  {
    var written := IngestAll(map[], recs, rt, violatesSchema);
    IngestAllOverlays(rows, recs, rt, violatesSchema);
    IngestAllOverlays(rows + written, recs, rt, violatesSchema);
    assert (rows + written) + written == rows + written;
  }

  /** The records `fetchLatestEarthquake` passes to the parser: the payload only when
      it is a single object. */
  function LatestRecords(outcome: HttpOutcome): (recs: seq<BmkgRecord>)
    ensures |recs| <= 1
    ensures recs != [] <==> outcome.Received? && outcome.infogempa.Some? && outcome.infogempa.value.Single?
    ensures recs != [] ==> recs == [outcome.infogempa.value.record]
  {
    match outcome
    case Received(Some(Single(rec))) => [rec]
    case _ => []
  }

  /** The records the two list feeds pass to the parser: the payload only when it is
      an array. */
  function ListRecords(outcome: HttpOutcome): (recs: seq<BmkgRecord>)
    ensures recs != [] ==> outcome.Received? && outcome.infogempa.Some? && outcome.infogempa.value.List?
    ensures outcome.Received? && outcome.infogempa.Some? && outcome.infogempa.value.List? ==>
      recs == outcome.infogempa.value.records
  {
    match outcome
    case Received(Some(List(recs))) => recs
    case _ => []
  }

  /** The two array feeds. */
  datatype ListFeed = M5 | Felt {
    function FetchType(): string
    {
      match this
      case M5 => "gempaterkini"
      case Felt => "gempadirasakan"
    }
    function Noun(): string
    {
      match this
      case M5 => " M5.0+ earthquakes"
      case Felt => " felt earthquakes"
    }
  }

  /** The log entry `fetchLatestEarthquake` writes. */
  function LatestLog(outcome: HttpOutcome): (entry: LogEntry)
    ensures entry.fetchType == "autogempa"
    ensures entry.status == "success" <==> outcome.Received? && outcome.infogempa.Some?
    ensures entry.status == "success" || entry.status == "error"
    ensures outcome.RequestFailed? ==> entry.message == outcome.message
  {
    match outcome
    case RequestFailed(message) => LogEntry("autogempa", "error", message)
    case Received(None) => LogEntry("autogempa", "error", MissingInfogempaMessage)
    case Received(Some(_)) => LogEntry("autogempa", "success", "Fetched latest earthquake")
  }

  /** The log entry a list feed writes. */
  function ListLog(feed: ListFeed, outcome: HttpOutcome, rt: Runtime): (entry: LogEntry)
    ensures entry.fetchType == feed.FetchType()
    ensures entry.status == "success" <==> outcome.Received? && outcome.infogempa.Some?
    ensures entry.status == "success" || entry.status == "error"
    ensures outcome.RequestFailed? ==> entry.message == outcome.message
  {
    match outcome
    case RequestFailed(message) => LogEntry(feed.FetchType(), "error", message)
    case Received(None) => LogEntry(feed.FetchType(), "error", MissingInfogempaMessage)
    case Received(Some(gempa)) => LogEntry(feed.FetchType(), "success", "Fetched " + rt.gempaText(gempa) + feed.Noun())
  }

  /** Every record one ingestion cycle parses, feed by feed, in call order. */
  function CycleRecords(latest: HttpOutcome, m5: HttpOutcome, felt: HttpOutcome): seq<BmkgRecord>
  {
    LatestRecords(latest) + ListRecords(m5) + ListRecords(felt)
  }

  /** Running a cycle twice on unchanged feeds leaves the table as running it once. */
  lemma CycleIdempotent(rows: map<string, Row>, latest: HttpOutcome, m5: HttpOutcome, felt: HttpOutcome, rt: Runtime, violatesSchema: Row -> bool)
    ensures var recs := CycleRecords(latest, m5, felt);
      IngestAll(IngestAll(rows, recs, rt, violatesSchema), recs, rt, violatesSchema) == IngestAll(rows, recs, rt, violatesSchema)
  {
    IngestAllIdempotent(rows, CycleRecords(latest, m5, felt), rt, violatesSchema);
  }

  /** A failing feed contributes no rows: the cycle's effect is that of the other feeds. */
  lemma FailedFeedIsolated(rows: map<string, Row>, message: string, m5: HttpOutcome, felt: HttpOutcome, rt: Runtime, violatesSchema: Row -> bool)
    ensures IngestAll(rows, CycleRecords(RequestFailed(message), m5, felt), rt, violatesSchema)
         == IngestAll(IngestAll(rows, ListRecords(m5), rt, violatesSchema), ListRecords(felt), rt, violatesSchema)
  {
    assert CycleRecords(RequestFailed(message), m5, felt) == ListRecords(m5) + ListRecords(felt);
    IngestAllAppend(rows, ListRecords(m5), ListRecords(felt), rt, violatesSchema);
  }

  /** The SQLite database: the `earthquakes` table keyed by id and the `fetch_logs`
      table. `violatesSchema` says which rows the table's constraints reject (the
      schema is not part of this model). */
  class Database {
    var rows: map<string, Row>
    var fetchLogs: seq<LogEntry>
    const violatesSchema: Row -> bool

    constructor(violatesSchema: Row -> bool)
      ensures rows == map[] && fetchLogs == [] && this.violatesSchema == violatesSchema
    {
      rows := map[];
      fetchLogs := [];
      this.violatesSchema := violatesSchema;
    }

    /** `INSERT OR REPLACE INTO earthquakes ...`; `ok` is false when it throws. */
    method InsertOrReplace(row: Row) returns (ok: bool)
      modifies this
      ensures ok == !violatesSchema(row)
      ensures rows == if ok then old(rows)[row.id := row] else old(rows)
      ensures fetchLogs == old(fetchLogs)
    {
      ok := !violatesSchema(row);
      if ok {
        rows := rows[row.id := row];
      }
    }

    /** `INSERT INTO fetch_logs ...` */
    method InsertLog(entry: LogEntry)
      modifies this
      ensures fetchLogs == old(fetchLogs) + [entry]
      ensures rows == old(rows)
    {
      fetchLogs := fetchLogs + [entry];
    }
  }

  /** `parseAndInsertEarthquake`: every failure is caught, so a bad record only
      leaves the table as it was. */
  method ParseAndInsertEarthquake(db: Database, rec: BmkgRecord, rt: Runtime)
    modifies db
    ensures db.rows == Ingest(old(db.rows), rec, rt, db.violatesSchema)
    ensures db.fetchLogs == old(db.fetchLogs)
  {
    match Normalize(rec, rt)
    case Failure(_) =>
    case Success(row) =>
      var _ := db.InsertOrReplace(row);
  }

  /** `gempaList.forEach(parseAndInsertEarthquake)` */
  method ParseAndInsertAll(db: Database, recs: seq<BmkgRecord>, rt: Runtime)
    modifies db
    ensures db.rows == IngestAll(old(db.rows), recs, rt, db.violatesSchema)
    ensures db.fetchLogs == old(db.fetchLogs)
  {
    for i := 0 to |recs|
      invariant db.rows == IngestAll(old(db.rows), recs[..i], rt, db.violatesSchema)
      invariant db.fetchLogs == old(db.fetchLogs)
    {
      IngestAllAppend(old(db.rows), recs[..i], [recs[i]], rt, db.violatesSchema);
      assert recs[..i + 1] == recs[..i] + [recs[i]];
      ParseAndInsertEarthquake(db, recs[i], rt);
    }
    assert recs[..|recs|] == recs;
  }

  /** `fetchLatestEarthquake`, with the HTTP response as a parameter. */
  method FetchLatestEarthquake(db: Database, outcome: HttpOutcome, rt: Runtime)
    modifies db
    ensures db.rows == IngestAll(old(db.rows), LatestRecords(outcome), rt, db.violatesSchema)
    ensures db.fetchLogs == old(db.fetchLogs) + [LatestLog(outcome)]
  {
    match outcome
    case RequestFailed(message) =>
      db.InsertLog(LogEntry("autogempa", "error", message));
    case Received(None) =>
      db.InsertLog(LogEntry("autogempa", "error", MissingInfogempaMessage));
    case Received(Some(gempa)) =>
      if gempa.Single? {
        ParseAndInsertEarthquake(db, gempa.record, rt);
      }
      db.InsertLog(LogEntry("autogempa", "success", "Fetched latest earthquake"));
  }

  /** The common body of `fetchM5Earthquakes` and `fetchFeltEarthquakes`. */
  method FetchListEarthquakes(db: Database, feed: ListFeed, outcome: HttpOutcome, rt: Runtime)
    modifies db
    ensures db.rows == IngestAll(old(db.rows), ListRecords(outcome), rt, db.violatesSchema)
    ensures db.fetchLogs == old(db.fetchLogs) + [ListLog(feed, outcome, rt)]
  {
    match outcome
    case RequestFailed(message) =>
      db.InsertLog(LogEntry(feed.FetchType(), "error", message));
    case Received(None) =>
      db.InsertLog(LogEntry(feed.FetchType(), "error", MissingInfogempaMessage));
    case Received(Some(gempa)) =>
      if gempa.List? {
        ParseAndInsertAll(db, gempa.records, rt);
      }
      db.InsertLog(LogEntry(feed.FetchType(), "success", "Fetched " + rt.gempaText(gempa) + feed.Noun()));
  }

  method FetchM5Earthquakes(db: Database, outcome: HttpOutcome, rt: Runtime)
    modifies db
    ensures db.rows == IngestAll(old(db.rows), ListRecords(outcome), rt, db.violatesSchema)
    ensures db.fetchLogs == old(db.fetchLogs) + [ListLog(M5, outcome, rt)]
  {
    FetchListEarthquakes(db, M5, outcome, rt);
  }

  method FetchFeltEarthquakes(db: Database, outcome: HttpOutcome, rt: Runtime)
    modifies db
    ensures db.rows == IngestAll(old(db.rows), ListRecords(outcome), rt, db.violatesSchema)
    ensures db.fetchLogs == old(db.fetchLogs) + [ListLog(Felt, outcome, rt)]
  {
    FetchListEarthquakes(db, Felt, outcome, rt);
  }

  /** `fetchAllEarthquakes`, its three fetches run one after the other: exactly one
      log entry per feed, each decided by that feed's own response. */
  method FetchAllEarthquakes(db: Database, latest: HttpOutcome, m5: HttpOutcome, felt: HttpOutcome, rt: Runtime)
    modifies db
    ensures db.rows == IngestAll(old(db.rows), CycleRecords(latest, m5, felt), rt, db.violatesSchema)
    ensures db.fetchLogs == old(db.fetchLogs) + [LatestLog(latest), ListLog(M5, m5, rt), ListLog(Felt, felt, rt)]
  {
    ghost var before := db.rows;
    FetchLatestEarthquake(db, latest, rt);
    FetchM5Earthquakes(db, m5, rt);
    FetchFeltEarthquakes(db, felt, rt);
    IngestAllAppend(before, LatestRecords(latest), ListRecords(m5), rt, db.violatesSchema);
    IngestAllAppend(before, LatestRecords(latest) + ListRecords(m5), ListRecords(felt), rt, db.violatesSchema);
  }
}
