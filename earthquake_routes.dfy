/** The read endpoints under `/api/earthquakes` (server/src/routes/earthquakes.ts).
    The hosted store is a sequence of rows in insertion order; each handler's result
    is the status it selects and the body it sends. */
module EarthquakeRoutes {
  import opened Wrappers
  import opened Seqs
  import opened Types
  import opened MagnitudeBands

  /** The hosted store as a handler sees it: not configured (no client), failing
      every query with a message, or answering over `rows`. */
  datatype Store = Unconfigured | Failing(message: string) | Connected(rows: seq<Earthquake>)

  /** A JSON reply: `success: true` with a body, or an error status with its text. */
  datatype Reply<+T> = Ok(body: T) | Status(code: int, message: string)

  const NotConfiguredMessage: string := "Database not configured"

  /** The error code PostgREST returns when `.single()` finds no row, or more than one. */
  const NotExactlyOneRow: string := "PGRST116"

  /** `calculateDistance(lat1, lon1, lat2, lon2)` in km (its body is not part of this
      model). */
  type DistanceFn = (real, real, real, real) -> real

  /** The sort key of `.order("timestamp", { ascending: false })`. */
  function RecencyKey(e: Earthquake): real
  {
    -(e.timestamp as real)
  }

  /** The store's rows newest first. The database does not fix the order of rows with
      equal timestamps; the model keeps them in stored order, which is one choice. */
  function ByRecency(rows: seq<Earthquake>): (r: seq<Earthquake>)
    ensures multiset(r) == multiset(rows)
    ensures forall i, j :: 0 <= i < j < |r| ==> r[i].timestamp >= r[j].timestamp
  {
    var r := SortBy(rows, RecencyKey);
    assert forall i, j :: 0 <= i < j < |r| ==> RecencyKey(r[i]) <= RecencyKey(r[j]);
    r
  }

  function Min(a: int, b: int): int
  {
    if a <= b then a else b
  }

  /** `.range(offset, offset + limit - 1)`: at most `limit` rows starting at `offset`. */
  function Window<T>(s: seq<T>, offset: nat, limit: nat): (w: seq<T>)
    ensures |w| == if offset >= |s| then 0 else Min(limit, |s| - offset)
    ensures forall i :: 0 <= i < |w| ==> w[i] == s[offset + i]
  {
    if offset >= |s| then [] else s[offset..Min(offset + limit, |s|)]
  }

  /** Consecutive pages tile the result: the page after a page of `a` rows continues
      exactly where it stopped. */
  lemma WindowsTile<T>(s: seq<T>, offset: nat, a: nat, b: nat)
    ensures Window(s, offset, a) + Window(s, offset + a, b) == Window(s, offset, a + b)
  {
    var left, right, whole := Window(s, offset, a), Window(s, offset + a, b), Window(s, offset, a + b);
    assert |left + right| == |whole|;
    forall i | 0 <= i < |whole| ensures (left + right)[i] == whole[i] {
      if i >= |left| {
        assert i - |left| < |right|;
        assert right[i - |left|] == s[offset + a + (i - |left|)];
      }
    }
  }

  /** The list endpoint's query. The magnitude bounds are `None` when absent or empty
      (they pass a truthiness test). `limit` and `offset` are `None` only when absent,
      where the defaults apply; otherwise they are the values `parseInt` gives. */
  datatype ListQuery = ListQuery(limit: Option<nat>, offset: Option<nat>, minMagnitude: Option<real>, maxMagnitude: Option<real>)

  datatype Pagination = Pagination(total: nat, limit: nat, offset: nat)
  datatype Page = Page(data: seq<Earthquake>, pagination: Pagination)

  /** The `.gte` and `.lte` filters the list query adds for the parameters given. */
  function MagnitudeWithin(minMagnitude: Option<real>, maxMagnitude: Option<real>): Earthquake -> bool
  {
    (e: Earthquake) =>
      (minMagnitude.None? || e.magnitude >= minMagnitude.value)
      && (maxMagnitude.None? || e.magnitude <= maxMagnitude.value)
  }

  /** `GET /api/earthquakes` */
  function ListEarthquakes(store: Store, q: ListQuery): (reply: Reply<Page>)
    ensures store.Unconfigured? <==> reply == Status(503, NotConfiguredMessage)
    ensures store.Failing? ==> reply == Status(500, store.message)
    ensures store.Connected? ==> reply.Ok?
  {
    match store
    case Unconfigured => Status(503, NotConfiguredMessage)
    case Failing(message) => Status(500, message)
    case Connected(rows) =>
      var limit := q.limit.GetOr(50);
      var offset := q.offset.GetOr(0);
      var matching := ListMatching(rows, q);
      Ok(Page(Window(matching, offset, limit), Pagination(|matching|, limit, offset)))
  }

  /** The newest-first rows that pass the list query's magnitude filters. */
  function ListMatching(rows: seq<Earthquake>, q: ListQuery): seq<Earthquake>
  {
    Filter(ByRecency(rows), MagnitudeWithin(q.minMagnitude, q.maxMagnitude))
  }

  /** A page is the window of at most `limit` rows starting at position `offset` of
      the filtered newest-first rows, whose number is the reported total; limit and
      offset default to 50 and 0. */
  lemma ListPageWindow(rows: seq<Earthquake>, q: ListQuery)
    ensures var reply := ListEarthquakes(Connected(rows), q);
      var limit := q.limit.GetOr(50);
      var offset := q.offset.GetOr(0);
      var matching := ListMatching(rows, q);
      && reply.Ok?
      && reply.body.pagination == Pagination(|matching|, limit, offset)
      && |reply.body.data| == (if offset >= |matching| then 0 else Min(limit, |matching| - offset))
      && (forall i :: 0 <= i < |reply.body.data| ==> reply.body.data[i] == matching[offset + i])
      && (q.limit.None? ==> reply.body.pagination.limit == 50)
  {
  }

  /** Every listed row is a stored row passing the inclusive magnitude filters. */
  lemma ListPageFiltered(rows: seq<Earthquake>, q: ListQuery)
    ensures var data := ListEarthquakes(Connected(rows), q).body.data;
      forall e :: e in data ==> (e in rows
        && (q.minMagnitude.Some? ==> e.magnitude >= q.minMagnitude.value)
        && (q.maxMagnitude.Some? ==> e.magnitude <= q.maxMagnitude.value))
  {
    var sorted := ByRecency(rows);
    var matching := ListMatching(rows, q);
    var data := ListEarthquakes(Connected(rows), q).body.data;
    forall e | e in data ensures e in rows && MagnitudeWithin(q.minMagnitude, q.maxMagnitude)(e) {
      var i :| 0 <= i < |data| && data[i] == e;
      assert e in matching;
      assert e in multiset(sorted);
    }
  }

  /** Listed rows are newest first. */
  lemma ListPageNewestFirst(rows: seq<Earthquake>, q: ListQuery)
    ensures var data := ListEarthquakes(Connected(rows), q).body.data;
      forall i, j :: 0 <= i < j < |data| ==> data[i].timestamp >= data[j].timestamp
  {
    var sorted := ByRecency(rows);
    var matching := ListMatching(rows, q);
    var offset := q.offset.GetOr(0);
    var data := ListEarthquakes(Connected(rows), q).body.data;
    assert SortedBy(sorted, RecencyKey);
    FilterKeepsSorted(sorted, MagnitudeWithin(q.minMagnitude, q.maxMagnitude), RecencyKey);
    forall i, j | 0 <= i < j < |data| ensures data[i].timestamp >= data[j].timestamp {
      assert RecencyKey(matching[offset + i]) <= RecencyKey(matching[offset + j]);
    }
  }

  /** The nearby endpoint's query parameters; `None` for an absent one. */
  datatype NearbyQuery = NearbyQuery(lat: Option<string>, lng: Option<string>, radius: Option<string>)

  /** The nearby reply: the rows with their distance, the parsed position and radius
      (`None` is `NaN`). */
  datatype NearbyBody = NearbyBody(data: seq<Earthquake>, userLatitude: Option<real>, userLongitude: Option<real>, radius: Option<real>)

  const DefaultRadiusText: string := "100"
  const MissingCoordinatesMessage: string := "Latitude and longitude are required"

  /** JavaScript truthiness of a query parameter. */
  predicate Given(param: Option<string>)
  {
    param.Some? && param.value != ""
  }

  /** `Math.round(d * 10) / 10`: `Math.round` rounds halves upwards. */
  function RoundTenth(d: real): (r: real)
    ensures d - 0.05 < r <= d + 0.05
  {
    ((d * 10.0 + 0.5).Floor as real) / 10.0
  }

  /** A row with its rounded distance from the user. */
  function WithDistance(e: Earthquake, userLat: real, userLng: real, distance: DistanceFn): (a: Earthquake)
    ensures a.id == e.id && a.timestamp == e.timestamp && a.magnitude == e.magnitude
    ensures a.(distance := e.distance) == e
  {
    e.(distance := Some(RoundTenth(distance(userLat, userLng, e.latitude, e.longitude))))
  }

  /** The `.map` step. */
  function Annotate(rows: seq<Earthquake>, userLat: real, userLng: real, distance: DistanceFn): (r: seq<Earthquake>)
    ensures |r| == |rows|
    ensures forall i :: 0 <= i < |rows| ==> r[i].(distance := rows[i].distance) == rows[i]
    ensures forall i :: 0 <= i < |rows| ==>
      r[i].distance == Some(RoundTenth(distance(userLat, userLng, rows[i].latitude, rows[i].longitude)))
  {
    seq(|rows|, i requires 0 <= i < |rows| => WithDistance(rows[i], userLat, userLng, distance))
  }

  /** The `.filter` test `eq.distance <= radiusKm`. */
  function WithinRadius(radiusKm: real): Earthquake -> bool
  {
    (e: Earthquake) => e.distance.Some? && e.distance.value <= radiusKm
  }

  /** The `.sort` key `a.distance - b.distance`. */
  function DistanceKey(e: Earthquake): real
  {
    e.distance.GetOr(0.0)
  }

  /** The map / filter / sort pipeline over the newest-first rows. */
  function Nearby(rows: seq<Earthquake>, userLat: real, userLng: real, radiusKm: real, distance: DistanceFn): seq<Earthquake>
  {
    SortBy(Filter(Annotate(ByRecency(rows), userLat, userLng, distance), WithinRadius(radiusKm)), DistanceKey)
  }

  /** `GET /api/earthquakes/nearby`. A `NaN` position or radius makes every comparison
      false, so the list is empty. */
  function NearbyEarthquakes(store: Store, q: NearbyQuery, parseFloat: string -> Option<real>, distance: DistanceFn): (reply: Reply<NearbyBody>)
    ensures store.Unconfigured? ==> reply == Status(503, NotConfiguredMessage)
    ensures !store.Unconfigured? && !(Given(q.lat) && Given(q.lng)) ==> reply == Status(400, MissingCoordinatesMessage)
    ensures reply.Ok? <==> store.Connected? && Given(q.lat) && Given(q.lng)
    ensures store.Failing? && Given(q.lat) && Given(q.lng) ==> reply == Status(500, store.message)
    ensures reply.Ok? ==> reply.body.radius == parseFloat(if q.radius.Some? then q.radius.value else DefaultRadiusText)
    ensures reply.Ok? ==>
      var userLat := parseFloat(q.lat.value);
      var userLng := parseFloat(q.lng.value);
      var radiusKm := reply.body.radius;
      && reply.body.userLatitude == userLat && reply.body.userLongitude == userLng
      && reply.body.data == if userLat.Some? && userLng.Some? && radiusKm.Some?
        then Nearby(store.rows, userLat.value, userLng.value, radiusKm.value, distance)
        else []
  {
    if store.Unconfigured? then Status(503, NotConfiguredMessage)
    else if !(Given(q.lat) && Given(q.lng)) then Status(400, MissingCoordinatesMessage)
    else
      var userLat := parseFloat(q.lat.value);
      var userLng := parseFloat(q.lng.value);
      var radiusKm := parseFloat(q.radius.GetOr(DefaultRadiusText));
      match store
      case Failing(message) => Status(500, message)
      case Connected(rows) =>
        var data := if userLat.Some? && userLng.Some? && radiusKm.Some?
          then Nearby(rows, userLat.value, userLng.value, radiusKm.value, distance)
          else [];
        Ok(NearbyBody(data, userLat, userLng, radiusKm))
  }

  /** Without both coordinates the reply is 400 whatever the store holds: the store is
      not read. */
  lemma MissingCoordinatesIgnoreStore(a: Store, b: Store, q: NearbyQuery, parseFloat: string -> Option<real>, distance: DistanceFn)
    requires !a.Unconfigured? && !b.Unconfigured?
    requires !Given(q.lat) || !Given(q.lng)
    ensures NearbyEarthquakes(a, q, parseFloat, distance) == NearbyEarthquakes(b, q, parseFloat, distance) == Status(400, MissingCoordinatesMessage)
  {
  }

  /** Every nearby result carries its rounded distance, which is within the radius,
      and the results are in ascending order of distance. */
  lemma NearbySound(rows: seq<Earthquake>, userLat: real, userLng: real, radiusKm: real, distance: DistanceFn)
    ensures var r := Nearby(rows, userLat, userLng, radiusKm, distance);
      && (forall e :: e in r ==> e.distance.Some? && e.distance.value <= radiusKm)
      && (forall e :: e in r ==> exists row :: row in rows && e == WithDistance(row, userLat, userLng, distance))
      && (forall i, j :: 0 <= i < j < |r| ==> r[i].distance.Some? && r[j].distance.Some? && r[i].distance.value <= r[j].distance.value)
  {
    var sorted := ByRecency(rows);
    var annotated := Annotate(sorted, userLat, userLng, distance);
    var kept := Filter(annotated, WithinRadius(radiusKm));
    var r := SortBy(kept, DistanceKey);
    forall e | e in r ensures exists row :: row in rows && e == WithDistance(row, userLat, userLng, distance) {
      assert e in annotated;
      var i :| 0 <= i < |annotated| && annotated[i] == e;
      assert sorted[i] in multiset(rows);
    }
    forall i, j | 0 <= i < j < |r|
      ensures r[i].distance.Some? && r[j].distance.Some? && r[i].distance.value <= r[j].distance.value
    {
      assert r[i] in kept && r[j] in kept;
      assert DistanceKey(r[i]) <= DistanceKey(r[j]);
    }
  }

  /** Every stored row whose rounded distance is within the radius is returned, and
      when ids are unique, exactly once. */
  lemma NearbyComplete(rows: seq<Earthquake>, userLat: real, userLng: real, radiusKm: real, distance: DistanceFn, row: Earthquake)
    requires row in rows
    requires RoundTenth(distance(userLat, userLng, row.latitude, row.longitude)) <= radiusKm
    ensures WithDistance(row, userLat, userLng, distance) in Nearby(rows, userLat, userLng, radiusKm, distance)
    ensures UniqueIds(rows) ==> multiset(Nearby(rows, userLat, userLng, radiusKm, distance))[WithDistance(row, userLat, userLng, distance)] == 1
  {
    var annotated := Annotate(ByRecency(rows), userLat, userLng, distance);
    var a := WithDistance(row, userLat, userLng, distance);
    var kept := Filter(annotated, WithinRadius(radiusKm));
    AnnotatedHoldsRow(rows, userLat, userLng, distance, row);
    assert WithinRadius(radiusKm)(a);
    FilterCount(annotated, WithinRadius(radiusKm), a);
    assert multiset(kept)[a] == multiset(annotated)[a];
    assert multiset(Nearby(rows, userLat, userLng, radiusKm, distance)) == multiset(kept);
    if UniqueIds(rows) {
      AnnotatedUniqueIds(rows, userLat, userLng, distance);
      DistinctOccursOnce(annotated, a);
    }
  }

  /** The annotated, newest-first rows contain every stored row, annotated. */
  lemma AnnotatedHoldsRow(rows: seq<Earthquake>, userLat: real, userLng: real, distance: DistanceFn, row: Earthquake)
    requires row in rows
    ensures WithDistance(row, userLat, userLng, distance) in Annotate(ByRecency(rows), userLat, userLng, distance)
  {
    var sorted := ByRecency(rows);
    assert row in multiset(sorted);
    var i :| 0 <= i < |sorted| && sorted[i] == row;
    assert Annotate(sorted, userLat, userLng, distance)[i] == WithDistance(row, userLat, userLng, distance);
  }

  /** Annotating the newest-first rows keeps unique ids apart. */
  lemma AnnotatedUniqueIds(rows: seq<Earthquake>, userLat: real, userLng: real, distance: DistanceFn)
    requires UniqueIds(rows)
    ensures var annotated := Annotate(ByRecency(rows), userLat, userLng, distance);
      forall i, j :: 0 <= i < j < |annotated| ==> annotated[i] != annotated[j]
  {
    var sorted := ByRecency(rows);
    UniqueIdsPermuted(rows, sorted);
    var annotated := Annotate(sorted, userLat, userLng, distance);
    forall i, j | 0 <= i < j < |annotated| ensures annotated[i] != annotated[j] {
      assert annotated[i].id == sorted[i].id && annotated[j].id == sorted[j].id;
    }
  }

  /** Reordering rows keeps their ids unique. */
  lemma UniqueIdsPermuted(a: seq<Earthquake>, b: seq<Earthquake>)
    requires multiset(a) == multiset(b) && UniqueIds(a)
    ensures UniqueIds(b)
  {
    forall i, j | 0 <= i < j < |b| ensures b[i].id != b[j].id {
      assert b[i] in multiset(a) && b[j] in multiset(a);
      var k :| 0 <= k < |a| && a[k] == b[i];
      var l :| 0 <= l < |a| && a[l] == b[j];
      if b[i].id == b[j].id {
        assert k == l;
        assert b == b[..j] + b[j..];
        assert b[i] in b[..j];
        assert multiset(b)[b[i]] >= 2;
        assert forall x, y :: 0 <= x < y < |a| ==> a[x] != a[y];
        DistinctOccursOnce(a, b[i]);
      }
    }
  }

  /** Results at equal distance keep the store's newest-first order (the sort is
      stable). */
  lemma NearbyTiesNewestFirst(rows: seq<Earthquake>, userLat: real, userLng: real, radiusKm: real, distance: DistanceFn)
    ensures var r := Nearby(rows, userLat, userLng, radiusKm, distance);
      forall i, j :: 0 <= i < j < |r| && r[i].distance == r[j].distance ==> r[i].timestamp >= r[j].timestamp
  {
    var sorted := ByRecency(rows);
    var annotated := Annotate(sorted, userLat, userLng, distance);
    assert SortedBy(annotated, RecencyKey) by {
      assert forall i :: 0 <= i < |annotated| ==> RecencyKey(annotated[i]) == RecencyKey(sorted[i]);
    }
    var kept := Filter(annotated, WithinRadius(radiusKm));
    FilterKeepsSorted(annotated, WithinRadius(radiusKm), RecencyKey);
    SortByKeepsTies(kept, DistanceKey, RecencyKey);
    var r := SortBy(kept, DistanceKey);
    forall i, j | 0 <= i < j < |r| && r[i].distance == r[j].distance ensures r[i].timestamp >= r[j].timestamp {
      assert DistanceKey(r[i]) == DistanceKey(r[j]);
      assert RecencyKey(r[i]) <= RecencyKey(r[j]);
    }
  }

  /** A row returned for one radius is returned for every larger radius. */
  lemma NearbyRadiusMonotone(rows: seq<Earthquake>, userLat: real, userLng: real, r1: real, r2: real, distance: DistanceFn, e: Earthquake)
    requires r1 <= r2
    requires e in Nearby(rows, userLat, userLng, r1, distance)
    ensures e in Nearby(rows, userLat, userLng, r2, distance)
  {
    var annotated := Annotate(ByRecency(rows), userLat, userLng, distance);
    assert e in Filter(annotated, WithinRadius(r1));
    assert e in Filter(annotated, WithinRadius(r2));
  }

  /** One bucket of `byMagnitude`. */
  datatype Bucket = Bucket(range: string, count: nat)

  datatype Stats = Stats(total: nat, todayCount: nat, strongest: Option<Earthquake>, byMagnitude: seq<Bucket>)

  const BucketLabels: seq<string> := ["<5", "5-6", "6-7", "7+"]

  /** How many of `rows` fall in band `b`. */
  function CountInBand(rows: seq<Earthquake>, b: nat): nat
  {
    if rows == [] then 0
    else CountInBand(rows[..|rows| - 1], b) + (if Band(rows[|rows| - 1].magnitude) == b then 1 else 0)
  }

  /** Each row is in exactly one bucket, so the four counts add up to the number of
      rows. */
  lemma {:induction false} BucketsPartition(rows: seq<Earthquake>)
    ensures CountInBand(rows, 0) + CountInBand(rows, 1) + CountInBand(rows, 2) + CountInBand(rows, 3) == |rows|
  {
    if rows != [] {
      BucketsPartition(rows[..|rows| - 1]);
    }
  }

  /** The `forEach` that fills `byMagnitude`, with its four counters in an array. */
  method CountByMagnitude(rows: seq<Earthquake>) returns (buckets: seq<Bucket>)
    ensures |buckets| == 4
    ensures forall b :: 0 <= b < 4 ==> buckets[b] == Bucket(BucketLabels[b], CountInBand(rows, b))
  {
    var counts := new nat[4](_ => 0);
    for k := 0 to |rows|
      invariant forall b :: 0 <= b < 4 ==> counts[b] == CountInBand(rows[..k], b)
    {
      assert rows[..k + 1][..k] == rows[..k];
      var m := rows[k].magnitude;
      if m < 5.0 {
        counts[0] := counts[0] + 1;
      } else if m >= 5.0 && m < 6.0 {
        counts[1] := counts[1] + 1;
      } else if m >= 6.0 && m < 7.0 {
        counts[2] := counts[2] + 1;
      } else {
        counts[3] := counts[3] + 1;
      }
    }
    assert rows[..|rows|] == rows;
    buckets := [Bucket("<5", counts[0]), Bucket("5-6", counts[1]), Bucket("6-7", counts[2]), Bucket("7+", counts[3])];
  }

  /** The sort key of `.order("magnitude", { ascending: false })`. */
  function StrengthKey(e: Earthquake): real
  {
    -e.magnitude
  }

  /** `.order("magnitude", desc).limit(1).single()`; `.single()` on no rows is an
      error, which the stats handler ignores, leaving `null`. */
  function Strongest(rows: seq<Earthquake>): (s: Option<Earthquake>)
    ensures s.None? <==> rows == []
    ensures s.Some? ==> s.value in rows && forall e :: e in rows ==> e.magnitude <= s.value.magnitude
  {
    if rows == [] then None
    else
      var sorted := SortBy(rows, StrengthKey);
      assert sorted[0] in rows;
      assert forall e :: e in rows ==> StrengthKey(sorted[0]) <= StrengthKey(e) by {
        forall e | e in rows ensures StrengthKey(sorted[0]) <= StrengthKey(e) {
          var i :| 0 <= i < |sorted| && sorted[i] == e;
          if i > 0 {
            assert StrengthKey(sorted[0]) <= StrengthKey(sorted[i]);
          }
        }
      }
      Some(sorted[0])
  }

  /** `GET /api/earthquakes/stats`. Its four queries ignore their errors, so a failing
      store yields zero counts and no strongest row. `todayStart` is local midnight. */
  method GetStats(store: Store, todayStart: int) returns (reply: Reply<Stats>)
    ensures store.Unconfigured? <==> reply == Status(503, NotConfiguredMessage)
    ensures !store.Unconfigured? ==> reply.Ok? && |reply.body.byMagnitude| == 4
    ensures store.Failing? ==> reply == Ok(Stats(0, 0, None, [Bucket("<5", 0), Bucket("5-6", 0), Bucket("6-7", 0), Bucket("7+", 0)]))
    ensures store.Connected? ==>
      var stats := reply.body;
      && stats.total == |store.rows|
      && stats.todayCount == |Filter(store.rows, Since(todayStart))|
      && stats.strongest == Strongest(store.rows)
      && (forall b :: 0 <= b < 4 ==> stats.byMagnitude[b] == Bucket(BucketLabels[b], CountInBand(store.rows, b)))
      && stats.byMagnitude[0].count + stats.byMagnitude[1].count + stats.byMagnitude[2].count + stats.byMagnitude[3].count == stats.total
  {
    match store
    case Unconfigured =>
      reply := Status(503, NotConfiguredMessage);
    case Failing(_) =>
      var buckets := CountByMagnitude([]);
      assert buckets == [Bucket("<5", 0), Bucket("5-6", 0), Bucket("6-7", 0), Bucket("7+", 0)] by {
        assert forall b: nat :: CountInBand([], b) == 0;
      }
      reply := Ok(Stats(0, 0, None, buckets));
    case Connected(rows) =>
      var buckets := CountByMagnitude(rows);
      BucketsPartition(rows);
      reply := Ok(Stats(|rows|, |Filter(rows, Since(todayStart))|, Strongest(rows), buckets));
  }

  /** `.single()`: the one row, or PostgREST's error code. */
  function Single(rows: seq<Earthquake>): (r: Result<Earthquake, string>)
    ensures r.Success? <==> |rows| == 1
    ensures r.Success? ==> r.value == rows[0]
    ensures r.Failure? ==> r.error == NotExactlyOneRow
  {
    if |rows| == 1 then Success(rows[0]) else Failure(NotExactlyOneRow)
  }

  /** `GET /api/earthquakes/latest` */
  function LatestEarthquake(store: Store): (reply: Reply<Earthquake>)
    ensures store.Unconfigured? <==> reply == Status(503, NotConfiguredMessage)
    ensures store.Failing? ==> reply == Status(500, store.message)
    ensures store.Connected? ==> (reply == Status(404, "No earthquakes found") <==> store.rows == [])
    ensures reply.Ok? ==> (store.Connected? && reply.body in store.rows
      && forall e :: e in store.rows ==> e.timestamp <= reply.body.timestamp)
  {
    match store
    case Unconfigured => Status(503, NotConfiguredMessage)
    case Failing(message) => Status(500, message)
    case Connected(rows) =>
      var newest := ByRecency(rows);
      match Single(newest[..Min(1, |newest|)])
      case Success(e) =>
        assert e in multiset(rows);
        assert forall x :: x in rows ==> x in multiset(newest);
        Ok(e)
      case Failure(code) =>
        if code == NotExactlyOneRow then Status(404, "No earthquakes found") else Status(500, code)
  }

  /** The `.eq("id", id)` test. */
  function HasId(id: string): Earthquake -> bool
  {
    (e: Earthquake) => e.id == id
  }

  /** `GET /api/earthquakes/:id` */
  function EarthquakeById(store: Store, id: string): (reply: Reply<Earthquake>)
    ensures store.Unconfigured? <==> reply == Status(503, NotConfiguredMessage)
    ensures store.Failing? ==> reply == Status(500, store.message)
    ensures reply.Ok? ==> store.Connected? && reply.body in store.rows && reply.body.id == id
    ensures store.Connected? && id !in IdsOf(store.rows) ==> reply == Status(404, "Earthquake not found")
  {
    match store
    case Unconfigured => Status(503, NotConfiguredMessage)
    case Failing(message) => Status(500, message)
    case Connected(rows) =>
      var matching := Filter(rows, HasId(id));
      match Single(matching)
      case Success(e) =>
        assert e in matching;
        Ok(e)
      case Failure(code) =>
        if code == NotExactlyOneRow then Status(404, "Earthquake not found") else Status(500, code)
  }

  /** With unique ids, a stored id is found and returns its row. */
  lemma ByIdFindsStoredRow(rows: seq<Earthquake>, e: Earthquake)
    requires UniqueIds(rows) && e in rows
    ensures EarthquakeById(Connected(rows), e.id) == Ok(e)
  {
    var matching := Filter(rows, HasId(e.id));
    assert e in matching;
    FilterCount(rows, HasId(e.id), e);
    var i :| 0 <= i < |rows| && rows[i] == e;
    forall x | x in matching ensures x == e {
      var j :| 0 <= j < |rows| && rows[j] == x;
      assert rows[j].id == rows[i].id;
    }
    if |matching| > 1 {
      assert matching[0] in matching && matching[1] in matching;
      assert matching == [matching[0]] + [matching[1]] + matching[2..];
      assert multiset(matching)[e] >= 2;
      DistinctOccursOnce(rows, e);
    }
  }
}
