/** The client's data types (client/src/types/earthquake.ts), which are also the
    rows the server's query layer returns. */
module Types {
  import opened Wrappers

  /** The time windows the user can pick. `Unlisted` stands for any other text that
      reaches `getTimeFilterTimestamp` at run time (its `default` branch). */
  datatype TimeFilter = Realtime | Today | OneMonth | ThreeMonths | SixMonths | OneYear | Unlisted(name: string)

  /** One stored earthquake. Times are milliseconds since the epoch; `distance` is
      present only on rows returned by the nearby query. */
  datatype Earthquake = Earthquake(
    id: string,
    datetime: string,
    timestamp: int,
    magnitude: real,
    depth: real,
    latitude: real,
    longitude: real,
    region: string,
    tsunamiPotential: Option<string>,
    feltStatus: Option<string>,
    shakemapUrl: Option<string>,
    createdAt: int,
    distance: Option<real>)

  /** A saved alert location; `radius` is the alert radius in km. */
  datatype UserLocation = UserLocation(latitude: real, longitude: real, radius: real)

  /** A value caught by a `catch` clause: an `Error` object or anything else. */
  datatype Thrown = ErrorObject(message: string) | NonError

  /** `err instanceof Error ? err.message : fallback` */
  function ErrorText(err: Thrown, fallback: string): string
  {
    match err
    case ErrorObject(m) => m
    case NonError => fallback
  }

  /** The test `eq.timestamp >= cutoff` shared by the client's time filter and the
      server's count of today's earthquakes. */
  function Since(cutoff: int): Earthquake -> bool
  {
    (e: Earthquake) => e.timestamp >= cutoff
  }

  /** The ids of a list of earthquakes. */
  function IdsOf(s: seq<Earthquake>): set<string>
  {
    set e | e in s :: e.id
  }

  /** No two entries share an id (the store's primary key). */
  ghost predicate UniqueIds(s: seq<Earthquake>)
  {
    forall i, j :: 0 <= i < j < |s| ==> s[i].id != s[j].id
  }
}
