/** The map's marker helpers (client/src/components/Map.tsx): colour and size by
    magnitude, the "recent" highlight and the map centre. */
module MapView {
  import opened Wrappers
  import opened Types
  import opened MagnitudeBands
  import opened Sidebar

  /** The marker colour of each magnitude band: green, yellow, orange, red. */
  const MarkerColors: seq<string> := ["#22c55e", "#eab308", "#f97316", "#ef4444"]

  /** The least marker radius, in pixels. */
  const MinMarkerRadius: real := 8.0

  /** How long a marker counts as recent: one hour in milliseconds. */
  const RecentMs: int := 3600000

  /** The centre of Indonesia, shown when no earthquake is selected. */
  const IndonesiaCenter: (real, real) := (-2.5, 118.0)

  /** `getMagnitudeColor` */
  function MagnitudeColor(magnitude: real): (c: string)
    ensures c == MarkerColors[Band(magnitude)]
  {
    if magnitude < 5.0 then "#22c55e"
    else if magnitude < 6.0 then "#eab308"
    else if magnitude < 7.0 then "#f97316"
    else "#ef4444"
  }

  /** The map colour and the sidebar badge always agree on the band. */
  lemma ColorAndBadgeAgree(m1: real, m2: real)
    ensures MagnitudeColor(m1) == MagnitudeColor(m2) <==> MagnitudeBadgeClass(m1) == MagnitudeBadgeClass(m2)
  {
    assert MagnitudeColor(m1) == MagnitudeColor(m2) <==> Band(m1) == Band(m2);
    assert MagnitudeBadgeClass(m1) == MagnitudeBadgeClass(m2) <==> Band(m1) == Band(m2);
  }

  /** `getMagnitudeRadius`: `Math.max(magnitude * 3, 8)`. */
  function MagnitudeRadius(magnitude: real): (r: real)
    ensures r >= MinMarkerRadius && r >= 3.0 * magnitude
    ensures r == MinMarkerRadius || r == 3.0 * magnitude
  {
    if magnitude * 3.0 >= MinMarkerRadius then magnitude * 3.0 else MinMarkerRadius
  }

  /** A stronger earthquake never gets a smaller marker. */
  lemma MagnitudeRadiusMonotone(m1: real, m2: real)
    requires m1 <= m2
    ensures MagnitudeRadius(m1) <= MagnitudeRadius(m2)
  {
  }

  /** The `isRecent` test. */
  predicate IsRecent(now: int, timestamp: int)
  {
    now - timestamp < RecentMs
  }

  /** A marker is recent exactly when the sidebar says "just now" or a number of
      minutes. */
  lemma RecentMeansMinutes(now: int, timestamp: int)
    ensures IsRecent(now, timestamp) <==> ElapsedSince(now, timestamp).JustNow? || ElapsedSince(now, timestamp).MinutesAgo?
  {
  }

  /** The map centre: the selected earthquake, or the centre of Indonesia. */
  function MapCenter(selected: Option<Earthquake>): (center: (real, real))
    ensures selected.Some? ==> center == (selected.value.latitude, selected.value.longitude)
    ensures selected.None? ==> center == IndonesiaCenter
  {
    match selected
    case Some(e) => (e.latitude, e.longitude)
    case None => IndonesiaCenter
  }
}
