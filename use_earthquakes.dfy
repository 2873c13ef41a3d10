/** The polling hook (client/src/hooks/useEarthquakes.ts): fetch the feed for the
    saved location, apply the time window, and notify about earthquakes that are new
    since the previous poll, strong enough and within the alert radius. */
module UseEarthquakes {
  import opened Wrappers
  import opened Seqs
  import opened Types
  import opened Notifications
  import opened Geolocation

  /** One day in milliseconds. */
  const DayMs: int := 24 * 60 * 60 * 1000

  /** The least magnitude worth an alert. */
  const AlertMagnitude: real := 4.0

  /** How many rows the feed asks for when no location is saved. */
  const ListLimit: nat := 200

  const UnknownErrorMessage: string := "Unknown error"

  /** `getTimeFilterTimestamp`, with `Date.now()` and local midnight as parameters:
      the earliest timestamp the window keeps, 0 meaning no window. */
  function TimeFilterCutoff(filter: TimeFilter, now: int, todayStart: int): (cutoff: int)
    ensures filter == Realtime || filter.Unlisted? ==> cutoff == 0
    ensures filter == Today ==> cutoff == todayStart
    ensures filter == OneMonth ==> cutoff == now - 30 * DayMs
    ensures filter == ThreeMonths ==> cutoff == now - 90 * DayMs
    ensures filter == SixMonths ==> cutoff == now - 180 * DayMs
    ensures filter == OneYear ==> cutoff == now - 365 * DayMs
  {
    match filter
    case Realtime => 0
    case Today => todayStart
    case OneMonth => now - 30 * DayMs
    case ThreeMonths => now - 90 * DayMs
    case SixMonths => now - 180 * DayMs
    case OneYear => now - 365 * DayMs
    case Unlisted(_) => 0
  }

  /** The time window: applied only for a positive cutoff, it keeps exactly the
      records at or after the cutoff, in their order. */
  function ApplyTimeFilter(data: seq<Earthquake>, cutoff: int): (r: seq<Earthquake>)
    ensures cutoff <= 0 ==> r == data
    ensures cutoff > 0 ==> forall e :: e in r <==> e in data && e.timestamp >= cutoff
    ensures Subsequence(r, data)
  {
    if cutoff > 0 then
      FilterIsSubsequence(data, Since(cutoff));
      Filter(data, Since(cutoff))
    else
      SubsequenceOfItself(data);
      data
  }

  /** Longer windows reach further back, and every earthquake a shorter window shows
      is shown by each longer one. */
  lemma WindowsNest(data: seq<Earthquake>, now: int, todayStart: int)
    ensures TimeFilterCutoff(OneYear, now, todayStart) < TimeFilterCutoff(SixMonths, now, todayStart)
      < TimeFilterCutoff(ThreeMonths, now, todayStart) < TimeFilterCutoff(OneMonth, now, todayStart) < now
    ensures forall e :: e in ApplyTimeFilter(data, TimeFilterCutoff(OneMonth, now, todayStart)) ==>
      e in ApplyTimeFilter(data, TimeFilterCutoff(ThreeMonths, now, todayStart))
    ensures forall e :: e in ApplyTimeFilter(data, TimeFilterCutoff(ThreeMonths, now, todayStart)) ==>
      e in ApplyTimeFilter(data, TimeFilterCutoff(SixMonths, now, todayStart))
    ensures forall e :: e in ApplyTimeFilter(data, TimeFilterCutoff(SixMonths, now, todayStart)) ==>
      e in ApplyTimeFilter(data, TimeFilterCutoff(OneYear, now, todayStart))
  {
    var year := TimeFilterCutoff(OneYear, now, todayStart);
    var half := TimeFilterCutoff(SixMonths, now, todayStart);
    var quarter := TimeFilterCutoff(ThreeMonths, now, todayStart);
    var month := TimeFilterCutoff(OneMonth, now, todayStart);
    WiderWindowKeepsMore(data, quarter, month);
    WiderWindowKeepsMore(data, half, quarter);
    WiderWindowKeepsMore(data, year, half);
  }

  /** An earlier cutoff keeps every earthquake a later one keeps. */
  lemma WiderWindowKeepsMore(data: seq<Earthquake>, earlier: int, later: int)
    requires earlier <= later
    ensures forall e :: e in ApplyTimeFilter(data, later) ==> e in ApplyTimeFilter(data, earlier)
  {
    forall e | e in ApplyTimeFilter(data, later) ensures e in ApplyTimeFilter(data, earlier) {
      SubsequenceMembers(ApplyTimeFilter(data, later), data, e);
    }
  }

  /** Windowing what was already windowed changes nothing. */
  lemma ApplyTimeFilterIdempotent(data: seq<Earthquake>, cutoff: int)
    ensures ApplyTimeFilter(ApplyTimeFilter(data, cutoff), cutoff) == ApplyTimeFilter(data, cutoff)
  {
    if cutoff > 0 {
      FilterIdempotent(data, Since(cutoff));
    }
  }

  /** The request the hook makes. */
  datatype FeedRequest = NearbyRequest(latitude: real, longitude: real, radius: real) | ListRequest(limit: nat)

  /** With a saved location, the nearby feed with the saved radius; otherwise the
      list of the latest 200. */
  function RequestFor(location: Option<UserLocation>): (req: FeedRequest)
    ensures location.Some? <==> req.NearbyRequest?
    ensures location.Some? ==> req == NearbyRequest(location.value.latitude, location.value.longitude, location.value.radius)
    ensures location.None? ==> req == ListRequest(ListLimit)
  {
    match location
    case Some(l) => NearbyRequest(l.latitude, l.longitude, l.radius)
    case None => ListRequest(ListLimit)
  }

  /** No earthquake of the previous list has this id. */
  function IsNew(previous: seq<Earthquake>): Earthquake -> bool
  {
    (e: Earthquake) => e.id !in IdsOf(previous)
  }

  /** The alert test as written: `distance` must be truthy, which `0` is not. */
  function AlertWorthyAsWritten(radius: real): Earthquake -> bool
  {
    (e: Earthquake) => e.magnitude >= AlertMagnitude && e.distance.Some? && e.distance.value != 0.0 && e.distance.value <= radius
  }

  /** The alert test as intended: strong enough, with a known distance within the
      radius. */
  function AlertWorthy(radius: real): Earthquake -> bool
  {
    (e: Earthquake) => e.magnitude >= AlertMagnitude && e.distance.Some? && e.distance.value <= radius
  }

  /** An earthquake under 50 m from the user has rounded distance 0, which the test
      as written rejects although it is the nearest possible earthquake. */
  lemma NearestEarthquakeSuppressed(e: Earthquake, radius: real)
    requires e.magnitude >= AlertMagnitude && e.distance == Some(0.0) && radius >= 0.0
    ensures !AlertWorthyAsWritten(radius)(e)
    ensures AlertWorthy(radius)(e)
    ensures AlertWorthyAsWritten(radius)(e.(distance := Some(0.1))) || radius < 0.1
  {
  }

  /** The intended test: moving an alert-worthy earthquake closer keeps it
      alert-worthy, and it agrees with the test as written away from distance 0. */
  lemma AlertWorthyCloserStaysWorthy(e: Earthquake, radius: real, closer: real)
    requires AlertWorthy(radius)(e) && 0.0 <= closer <= e.distance.value
    ensures AlertWorthy(radius)(e.(distance := Some(closer)))
    ensures e.distance.value != 0.0 ==> AlertWorthyAsWritten(radius)(e)
  {
  }

  /** The earthquakes one poll alerts about: none without a previous list or a saved
      location; otherwise the new, alert-worthy ones, in fetched order. */
  function Alerts(previous: seq<Earthquake>, data: seq<Earthquake>, location: Option<UserLocation>): seq<Earthquake>
  {
    if |previous| > 0 && location.Some? then
      Filter(Filter(data, IsNew(previous)), AlertWorthy(location.value.radius))
    else []
  }

  /** An earthquake is alerted about exactly when it was fetched, is new, strong
      enough and within the radius, and there was a previous list and a location. */
  lemma AlertsExactly(previous: seq<Earthquake>, data: seq<Earthquake>, location: Option<UserLocation>, e: Earthquake)
    ensures e in Alerts(previous, data, location) <==>
      && |previous| > 0 && location.Some?
      && e in data
      && (forall p :: p in previous ==> p.id != e.id)
      && e.magnitude >= AlertMagnitude && e.distance.Some? && e.distance.value <= location.value.radius
  {
    if (forall p :: p in previous ==> p.id != e.id) {
      assert e.id !in IdsOf(previous);
    } else {
      var p :| p in previous && p.id == e.id;
      assert e.id in IdsOf(previous);
    }
  }

  /** Alerts come in fetched order. */
  lemma AlertsInFetchedOrder(previous: seq<Earthquake>, data: seq<Earthquake>, location: Option<UserLocation>)
    ensures Subsequence(Alerts(previous, data, location), data)
  {
    if |previous| > 0 && location.Some? {
      var newOnes := Filter(data, IsNew(previous));
      FilterIsSubsequence(data, IsNew(previous));
      FilterIsSubsequence(newOnes, AlertWorthy(location.value.radius));
      SubsequenceTransitive(Filter(newOnes, AlertWorthy(location.value.radius)), newOnes, data);
    } else {
      EmptySubsequence(data);
    }
  }

  /** What one poll leaves behind: the displayed list and the notifier. */
  datatype PollResult = PollResult(earthquakes: seq<Earthquake>, notifier: NotifierState)

  /** The body of `loadEarthquakes` after a successful fetch of `fetched`. */
  function Poll(previous: seq<Earthquake>, fetched: seq<Earthquake>, location: Option<UserLocation>, cutoff: int,
                st: NotifierState, permission: Permission): PollResult
  {
    var data := ApplyTimeFilter(fetched, cutoff);
    PollResult(data, SendAll(st, Alerts(previous, data, location), permission))
  }

  /** The first poll, and any poll without a saved location, notifies nobody. */
  lemma FirstPollIsSilent(previous: seq<Earthquake>, fetched: seq<Earthquake>, location: Option<UserLocation>, cutoff: int,
                          st: NotifierState, permission: Permission)
    requires previous == [] || location.None?
    ensures Poll(previous, fetched, location, cutoff, st, permission).notifier == st
  {
  }

  /** Polling again with the same response notifies nobody. */
  lemma RepeatedPollIsSilent(previous: seq<Earthquake>, fetched: seq<Earthquake>, location: Option<UserLocation>, cutoff: int,
                             st: NotifierState, permission: Permission)
    ensures var first := Poll(previous, fetched, location, cutoff, st, permission);
      Poll(first.earthquakes, fetched, location, cutoff, first.notifier, permission).notifier == first.notifier
  {
    var data := ApplyTimeFilter(fetched, cutoff);
    ApplyTimeFilterIdempotent(fetched, cutoff);
    forall e | e in data ensures !IsNew(data)(e) {
      assert e.id in IdsOf(data);
    }
    FilterNone(data, IsNew(data));
  }

  /** A poll keeps the ledger within 100 ids and free of repeats. */
  lemma PollKeepsLedgerInvariant(previous: seq<Earthquake>, fetched: seq<Earthquake>, location: Option<UserLocation>, cutoff: int,
                                 st: NotifierState, permission: Permission)
    ensures var after := Poll(previous, fetched, location, cutoff, st, permission).notifier;
      && (|ReadNotified(st.slot)| <= LedgerCapacity ==> |ReadNotified(after.slot)| <= LedgerCapacity)
      && (Distinct(ReadNotified(st.slot)) ==> Distinct(ReadNotified(after.slot)))
  {
    SendAllKeepsLedgerInvariant(st, Alerts(previous, ApplyTimeFilter(fetched, cutoff), location), permission);
  }

  /** With permission, a response with unique ids none of which was notified before
      shows exactly one notification per alert, in order. */
  lemma PollNotifiesEachAlertOnce(previous: seq<Earthquake>, fetched: seq<Earthquake>, location: Option<UserLocation>, cutoff: int,
                                  st: NotifierState)
    requires UniqueIds(fetched)
    requires forall e :: e in fetched ==> e.id !in ReadNotified(st.slot)
    ensures var alerts := Alerts(previous, ApplyTimeFilter(fetched, cutoff), location);
      Poll(previous, fetched, location, cutoff, st, Granted).notifier.shown == st.shown + Notices(alerts)
  {
    var data := ApplyTimeFilter(fetched, cutoff);
    var alerts := Alerts(previous, data, location);
    AlertsInFetchedOrder(previous, data, location);
    SubsequenceTransitive(alerts, data, fetched);
    SubsequenceKeepsUniqueIds(alerts, fetched);
    forall i | 0 <= i < |alerts| ensures alerts[i].id !in ReadNotified(st.slot) {
      SubsequenceMembers(alerts, fetched, alerts[i]);
    }
    SendAllFreshShowsEach(st, alerts);
  }

  lemma {:induction false} SubsequenceKeepsUniqueIds(a: seq<Earthquake>, b: seq<Earthquake>)
    requires Subsequence(a, b) && UniqueIds(b)
    ensures UniqueIds(a)
    decreases |b|
  {
    if a != [] {
      assert UniqueIds(b[1..]) by {
        forall i, j | 0 <= i < j < |b[1..]| ensures b[1..][i].id != b[1..][j].id {
          assert b[i + 1].id != b[j + 1].id;
        }
      }
      if a[0] == b[0] {
        SubsequenceKeepsUniqueIds(a[1..], b[1..]);
        forall j | 1 <= j < |a| ensures a[0].id != a[j].id {
          SubsequenceMembers(a[1..], b[1..], a[j]);
          var k :| 0 <= k < |b[1..]| && b[1..][k] == a[j];
          assert b[k + 1] == a[j];
        }
        forall i, j | 0 <= i < j < |a| ensures a[i].id != a[j].id {
          if i > 0 {
            assert a[i] == a[1..][i - 1] && a[j] == a[1..][j - 1];
          }
        }
      } else {
        SubsequenceKeepsUniqueIds(a, b[1..]);
      }
    }
  }

  /** The `forEach` over the new earthquakes, sending those that pass the alert test. */
  method NotifyEach(notifier: NotificationCenter, newEarthquakes: seq<Earthquake>, radius: real, permission: Permission)
    modifies notifier
    ensures notifier.State() == SendAll(old(notifier.State()), Filter(newEarthquakes, AlertWorthy(radius)), permission)
  {
    ghost var before := notifier.State();
    for i := 0 to |newEarthquakes|
      invariant notifier.State() == SendAll(before, Filter(newEarthquakes[..i], AlertWorthy(radius)), permission)
    {
      var eq := newEarthquakes[i];
      FilterAppend(newEarthquakes[..i], [eq], AlertWorthy(radius));
      assert newEarthquakes[..i + 1] == newEarthquakes[..i] + [eq];
      SendAllAppend(before, Filter(newEarthquakes[..i], AlertWorthy(radius)), Filter([eq], AlertWorthy(radius)), permission);
      if eq.magnitude >= AlertMagnitude && eq.distance.Some? && eq.distance.value <= radius {
        assert Filter([eq], AlertWorthy(radius)) == [eq];
        notifier.SendEarthquakeNotification(eq, permission);
      } else {
        assert Filter([eq], AlertWorthy(radius)) == [];
      }
    }
    assert newEarthquakes[..|newEarthquakes|] == newEarthquakes;
  }

  /** The hook's state. `lastUpdate` is the time of the last successful poll. */
  class EarthquakeFeed {
    var earthquakes: seq<Earthquake>
    var loading: bool
    var error: Option<string>
    var lastUpdate: Option<int>

    constructor()
      ensures earthquakes == [] && loading && error == None && lastUpdate == None
    {
      earthquakes := [];
      loading := true;
      error := None;
      lastUpdate := None;
    }

    /** `loadEarthquakes`. `fetch` stands for the two API calls; its failure is the
        value the `catch` clause receives. */
    method LoadEarthquakes(timeFilter: TimeFilter, now: int, todayStart: int, storage: LocationStorage,
                           fetch: FeedRequest -> Result<seq<Earthquake>, Thrown>,
                           notifier: NotificationCenter, permission: Permission)
      modifies this, notifier
      ensures !loading
      ensures var response := fetch(RequestFor(storage.GetUserLocation()));
        && (response.Failure? ==>
              && earthquakes == old(earthquakes) && lastUpdate == old(lastUpdate)
              && error == Some(ErrorText(response.error, UnknownErrorMessage))
              && notifier.State() == old(notifier.State()))
        && (response.Success? ==>
              var result := Poll(old(earthquakes), response.value, storage.GetUserLocation(),
                                 TimeFilterCutoff(timeFilter, now, todayStart), old(notifier.State()), permission);
              && earthquakes == result.earthquakes && notifier.State() == result.notifier
              && lastUpdate == Some(now) && error == None)
    {
      loading := true;
      error := None;
      var userLocation := storage.GetUserLocation();
      var response := fetch(RequestFor(userLocation));
      match response {
        case Failure(err) =>
          error := Some(ErrorText(err, UnknownErrorMessage));
        case Success(fetched) =>
          var data := fetched;
          var filterTimestamp := TimeFilterCutoff(timeFilter, now, todayStart);
          if filterTimestamp > 0 {
            data := Filter(data, Since(filterTimestamp));
          }
          if |earthquakes| > 0 && userLocation.Some? {
            var newEarthquakes := Filter(data, IsNew(earthquakes));
            NotifyEach(notifier, newEarthquakes, userLocation.value.radius, permission);
          }
          earthquakes := data;
          lastUpdate := Some(now);
      }
      loading := false;
    }
  }
}
