/** Browser notifications for new earthquakes (client/src/services/notification.ts):
    a notification is shown only with permission and only for an id not yet in the
    ledger of notified ids kept in `localStorage`, which holds the last 100 ids. */
module Notifications {
  import opened Wrappers
  import opened Types

  /** How many notified ids the ledger keeps (`slice(-100)`). */
  const LedgerCapacity: nat := 100

  /** `Notification.permission` */
  datatype Permission = Granted | Denied | Default

  /** The text under the ledger's storage key: a JSON array of ids, or text that
      `JSON.parse` rejects. */
  datatype StoredIds = Ids(ids: seq<string>) | Unparseable

  /** A shown notification: the earthquake it reports, its `tag` and whether it
      stays until dismissed. */
  datatype Notice = Notice(earthquake: Earthquake, tag: string, requireInteraction: bool)

  /** The ledger and the notifications shown so far. */
  datatype NotifierState = NotifierState(slot: Option<StoredIds>, shown: seq<Notice>)

  ghost predicate Distinct(s: seq<string>)
  {
    forall i, j :: 0 <= i < j < |s| ==> s[i] != s[j]
  }

  /** `getNotifiedEarthquakes`: an absent, empty or unparseable slot reads as no ids. */
  function ReadNotified(slot: Option<StoredIds>): (ids: seq<string>)
    ensures slot.None? || slot == Some(Unparseable) ==> ids == []
    ensures slot.Some? && slot.value.Ids? ==> ids == slot.value.ids
  {
    match slot
    case Some(Ids(ids)) => ids
    case _ => []
  }

  /** `r` is how `s` ends. */
  predicate EndsWith(s: seq<string>, r: seq<string>)
  {
    |r| <= |s| && s[|s| - |r|..] == r
  }

  /** `s.slice(-100)`: the last `LedgerCapacity` entries, or all of a shorter list. */
  function KeepLast(s: seq<string>): (r: seq<string>)
    ensures |r| == if |s| <= LedgerCapacity then |s| else LedgerCapacity
  {
    if |s| <= LedgerCapacity then s else s[|s| - LedgerCapacity..]
  }

  /** What is kept is the end of the list: the oldest entries are evicted first. */
  lemma KeepLastEndsWith(s: seq<string>)
    ensures EndsWith(s, KeepLast(s))
  {
  }

  /** Trimming a list that ends with a long enough tail of another gives the same
      ledger: only the last 100 entries ever matter. */
  lemma KeepLastOfSuffix(u: seq<string>, v: seq<string>)
    requires |u| <= |v| && u == v[|v| - |u|..] && |u| >= LedgerCapacity
    ensures KeepLast(u) == KeepLast(v)
  {
    assert u[|u| - LedgerCapacity..] == v[|v| - LedgerCapacity..];
  }

  /** Trimming before appending changes nothing. */
  lemma KeepLastAppend(s: seq<string>, t: seq<string>)
    ensures KeepLast(KeepLast(s) + t) == KeepLast(s + t)
  {
    if |s| > LedgerCapacity {
      var k := KeepLast(s);
      KeepLastEndsWith(s);
      assert k + t == (s + t)[|s + t| - |k + t|..];
      KeepLastOfSuffix(k + t, s + t);
    } else {
      assert KeepLast(s) == s;
    }
  }

  /** `markAsNotified` on a ledger: append, then keep the last 100. */
  function Remember(ledger: seq<string>, id: string): (r: seq<string>)
    ensures 1 <= |r| <= LedgerCapacity && r[|r| - 1] == id
  {
    KeepLast(ledger + [id])
  }

  /** Below capacity nothing is evicted; at or above it, the oldest entries go first
      and the ledger holds the newest 99 old ids followed by the new one. */
  lemma RememberEvictsOldest(ledger: seq<string>, id: string)
    ensures |ledger| < LedgerCapacity ==> Remember(ledger, id) == ledger + [id]
    ensures |ledger| >= LedgerCapacity ==> Remember(ledger, id) == ledger[|ledger| - LedgerCapacity + 1..] + [id]
  {
    if |ledger| >= LedgerCapacity {
      var whole := ledger + [id];
      assert whole[|whole| - LedgerCapacity..] == ledger[|ledger| - LedgerCapacity + 1..] + [id];
    }
  }

  /** Appending a new id to a ledger without repeats gives a ledger without repeats. */
  lemma RememberKeepsDistinct(ledger: seq<string>, id: string)
    requires Distinct(ledger) && id !in ledger
    ensures Distinct(Remember(ledger, id))
  {
    var whole := ledger + [id];
    assert Distinct(whole) by {
      forall i, j | 0 <= i < j < |whole| ensures whole[i] != whole[j] {
        if j == |ledger| {
          assert whole[i] in ledger;
        }
      }
    }
    var r := Remember(ledger, id);
    KeepLastEndsWith(whole);
    var d := |whole| - |r|;
    assert r == whole[d..];
    forall i, j | 0 <= i < j < |r| ensures r[i] != r[j] {
      assert r[i] == whole[d + i] && r[j] == whole[d + j];
    }
  }

  /** The notification shown for an earthquake: tagged with its id, and requiring
      interaction exactly when the magnitude is at least 6. */
  function NoticeFor(e: Earthquake): (n: Notice)
    ensures n.earthquake == e && n.tag == e.id
    ensures n.requireInteraction <==> e.magnitude >= 6.0
  {
    Notice(e, e.id, e.magnitude >= 6.0)
  }

  /** `sendEarthquakeNotification` on the ledger and the shown notifications. */
  function Send(st: NotifierState, e: Earthquake, permission: Permission): (r: NotifierState)
    ensures permission != Granted ==> r == st
    ensures e.id in ReadNotified(st.slot) ==> r == st
    ensures permission == Granted && e.id !in ReadNotified(st.slot) ==>
      r == NotifierState(Some(Ids(Remember(ReadNotified(st.slot), e.id))), st.shown + [NoticeFor(e)])
  {
    if permission != Granted then st
    else if e.id in ReadNotified(st.slot) then st
    else NotifierState(Some(Ids(Remember(ReadNotified(st.slot), e.id))), st.shown + [NoticeFor(e)])
  }

  /** After a send, the earthquake's id is in the ledger, unless permission is
      missing. */
  lemma SendRecordsId(st: NotifierState, e: Earthquake)
    ensures e.id in ReadNotified(Send(st, e, Granted).slot)
  {
    var r := Remember(ReadNotified(st.slot), e.id);
    assert r[|r| - 1] == e.id;
  }

  /** Sending the same earthquake twice in a row shows it once. */
  lemma SendTwice(st: NotifierState, e: Earthquake, permission: Permission)
    ensures Send(Send(st, e, permission), e, permission) == Send(st, e, permission)
  {
    if permission == Granted {
      SendRecordsId(st, e);
    }
  }

  /** A send keeps a ledger of at most 100 ids at most 100 long, and a ledger
      without repeats without repeats. */
  lemma SendKeepsLedgerInvariant(st: NotifierState, e: Earthquake, permission: Permission)
    ensures |ReadNotified(st.slot)| <= LedgerCapacity ==> |ReadNotified(Send(st, e, permission).slot)| <= LedgerCapacity
    ensures Distinct(ReadNotified(st.slot)) ==> Distinct(ReadNotified(Send(st, e, permission).slot))
  {
    if permission == Granted && e.id !in ReadNotified(st.slot) && Distinct(ReadNotified(st.slot)) {
      RememberKeepsDistinct(ReadNotified(st.slot), e.id);
    }
  }

  /** Sends in order, as `forEach` does. */
  function SendAll(st: NotifierState, es: seq<Earthquake>, permission: Permission): NotifierState
    decreases |es|
  {
    if es == [] then st else SendAll(Send(st, es[0], permission), es[1..], permission)
  }

  lemma {:induction false} SendAllAppend(st: NotifierState, a: seq<Earthquake>, b: seq<Earthquake>, permission: Permission)
    ensures SendAll(st, a + b, permission) == SendAll(SendAll(st, a, permission), b, permission)
    decreases |a|
  {
    if a == [] {
      assert a + b == b;
    } else {
      assert (a + b)[1..] == a[1..] + b;
      SendAllAppend(Send(st, a[0], permission), a[1..], b, permission);
    }
  }

  /** Any run of sends keeps the ledger within 100 ids and free of repeats. */
  lemma {:induction false} SendAllKeepsLedgerInvariant(st: NotifierState, es: seq<Earthquake>, permission: Permission)
    ensures |ReadNotified(st.slot)| <= LedgerCapacity ==> |ReadNotified(SendAll(st, es, permission).slot)| <= LedgerCapacity
    ensures Distinct(ReadNotified(st.slot)) ==> Distinct(ReadNotified(SendAll(st, es, permission).slot))
    decreases |es|
  {
    if es != [] {
      SendKeepsLedgerInvariant(st, es[0], permission);
      SendAllKeepsLedgerInvariant(Send(st, es[0], permission), es[1..], permission);
    }
  }

  /** Without permission nothing is shown and the ledger is untouched. */
  lemma {:induction false} SendAllWithoutPermission(st: NotifierState, es: seq<Earthquake>, permission: Permission)
    requires permission != Granted
    ensures SendAll(st, es, permission) == st
    decreases |es|
  {
    if es != [] {
      SendAllWithoutPermission(st, es[1..], permission);
    }
  }

  /** Every notification shown by a run of sends reports one of the earthquakes
      sent, and earlier notifications stay as they were. */
  lemma {:induction false} SendAllShowsOnlyInputs(st: NotifierState, es: seq<Earthquake>, permission: Permission)
    ensures var r := SendAll(st, es, permission);
      && |st.shown| <= |r.shown| <= |st.shown| + |es|
      && r.shown[..|st.shown|] == st.shown
      && forall n :: n in r.shown[|st.shown|..] ==> exists e :: e in es && n == NoticeFor(e)
    decreases |es|
  {
    if es != [] {
      var next := Send(st, es[0], permission);
      SendAllShowsOnlyInputs(next, es[1..], permission);
      var r := SendAll(st, es, permission);
      assert r == SendAll(next, es[1..], permission);
      assert r.shown[..|next.shown|] == next.shown;
      assert r.shown[..|st.shown|] == next.shown[..|st.shown|];
      forall n | n in r.shown[|st.shown|..] ensures exists e :: e in es && n == NoticeFor(e) {
        var i :| |st.shown| <= i < |r.shown| && r.shown[i] == n;
        if i < |next.shown| {
          assert n == NoticeFor(es[0]);
        } else {
          assert n in r.shown[|next.shown|..];
          var e :| e in es[1..] && n == NoticeFor(e);
          assert e in es;
        }
      }
    }
  }

  /** The notifications for a list of earthquakes, in order. */
  function Notices(es: seq<Earthquake>): (ns: seq<Notice>)
    ensures |ns| == |es| && forall i :: 0 <= i < |es| ==> ns[i] == NoticeFor(es[i])
  {
    seq(|es|, i requires 0 <= i < |es| => NoticeFor(es[i]))
  }

  /** The ids of a list of earthquakes, in order. */
  function IdList(es: seq<Earthquake>): (ids: seq<string>)
    ensures |ids| == |es| && forall i :: 0 <= i < |es| ==> ids[i] == es[i].id
  {
    seq(|es|, i requires 0 <= i < |es| => es[i].id)
  }

  /** Earthquakes with distinct ids none of which is in the ledger. */
  ghost predicate FreshBatch(ledger: seq<string>, es: seq<Earthquake>)
  {
    && (forall i, j :: 0 <= i < j < |es| ==> es[i].id != es[j].id)
    && (forall i :: 0 <= i < |es| ==> es[i].id !in ledger)
  }

  /** Trimming keeps no id that was not there. */
  lemma KeepLastSubset(s: seq<string>, x: string)
    requires x !in s
    ensures x !in KeepLast(s)
  {
  }

  /** After the first of a fresh batch is sent, the rest is fresh for the new ledger. */
  lemma FreshBatchRest(st: NotifierState, es: seq<Earthquake>)
    requires es != [] && FreshBatch(ReadNotified(st.slot), es)
    ensures FreshBatch(ReadNotified(Send(st, es[0], Granted).slot), es[1..])
  {
    var ledger := ReadNotified(st.slot);
    var grown := ledger + [es[0].id];
    SendFresh(st, es[0]);
    assert ReadNotified(Send(st, es[0], Granted).slot) == KeepLast(grown);
    forall i | 0 <= i < |es[1..]| ensures es[1..][i].id !in KeepLast(grown) {
      assert es[1..][i] == es[i + 1];
      assert es[i + 1].id != es[0].id;
      assert es[i + 1].id !in grown;
      KeepLastSubset(grown, es[i + 1].id);
    }
  }

  /** With permission, a fresh batch is shown exactly once each, in order. */
  lemma {:induction false} SendAllFreshShowsEach(st: NotifierState, es: seq<Earthquake>)
    requires FreshBatch(ReadNotified(st.slot), es)
    ensures SendAll(st, es, Granted).shown == st.shown + Notices(es)
    decreases |es|
  {
    if es == [] {
      assert st.shown + Notices(es) == st.shown;
    } else {
      var next := Send(st, es[0], Granted);
      assert es[0].id !in ReadNotified(st.slot);
      FreshBatchRest(st, es);
      SendAllFreshShowsEach(next, es[1..]);
      ShowsStep(st, es);
    }
  }

  /** One step of `SendAllFreshShowsEach`: the first notice, then those of the rest. */
  lemma ShowsStep(st: NotifierState, es: seq<Earthquake>)
    requires es != [] && es[0].id !in ReadNotified(st.slot)
    requires var next := Send(st, es[0], Granted);
      SendAll(next, es[1..], Granted).shown == next.shown + Notices(es[1..])
    ensures SendAll(st, es, Granted).shown == st.shown + Notices(es)
  {
    var next := Send(st, es[0], Granted);
    var n := NoticeFor(es[0]);
    var rest := Notices(es[1..]);
    SendAllStep(st, es, Granted);
    SendFresh(st, es[0]);
    NoticesCons(es);
    AppendAssociative(st.shown, [n], rest);
  }

  lemma AppendAssociative<T>(a: seq<T>, b: seq<T>, c: seq<T>)
    ensures (a + b) + c == a + (b + c)
  {
  }

  lemma SendAllStep(st: NotifierState, es: seq<Earthquake>, permission: Permission)
    requires es != []
    ensures SendAll(st, es, permission) == SendAll(Send(st, es[0], permission), es[1..], permission)
  {
  }

  /** With permission, sending an earthquake not yet notified shows its notification
      and appends its id to the trimmed ledger. */
  lemma SendFresh(st: NotifierState, e: Earthquake)
    requires e.id !in ReadNotified(st.slot)
    ensures Send(st, e, Granted) == NotifierState(Some(Ids(KeepLast(ReadNotified(st.slot) + [e.id]))), st.shown + [NoticeFor(e)])
  {
  }

  lemma NoticesCons(es: seq<Earthquake>)
    requires es != []
    ensures Notices(es) == [NoticeFor(es[0])] + Notices(es[1..])
  {
  }

  /** With permission, a non-empty fresh batch leaves the ledger as the last 100 of
      the old ledger followed by the batch's ids. */
  lemma {:induction false} SendAllFreshLedger(st: NotifierState, es: seq<Earthquake>)
    requires es != [] && FreshBatch(ReadNotified(st.slot), es)
    ensures SendAll(st, es, Granted).slot == Some(Ids(KeepLast(ReadNotified(st.slot) + IdList(es))))
    decreases |es|
  {
    var next := Send(st, es[0], Granted);
    assert es[0].id !in ReadNotified(st.slot);
    SendFresh(st, es[0]);
    FreshBatchRest(st, es);
    IdListCons(es);
    if |es| == 1 {
      assert IdList(es) == [es[0].id];
    } else {
      SendAllFreshLedger(next, es[1..]);
      LedgerStep(ReadNotified(st.slot), es);
    }
  }

  lemma LedgerStep(ledger: seq<string>, es: seq<Earthquake>)
    requires es != []
    ensures KeepLast(KeepLast(ledger + [es[0].id]) + IdList(es[1..])) == KeepLast(ledger + IdList(es))
  {
    IdListCons(es);
    KeepLastAppendOne(ledger, es[0].id, IdList(es[1..]));
  }

  lemma KeepLastAppendOne(ledger: seq<string>, x: string, t: seq<string>)
    ensures KeepLast(KeepLast(ledger + [x]) + t) == KeepLast(ledger + ([x] + t))
  {
    KeepLastAppend(ledger + [x], t);
    assert ledger + [x] + t == ledger + ([x] + t);
  }

  lemma IdListCons(es: seq<Earthquake>)
    requires es != []
    ensures IdList(es) == [es[0].id] + IdList(es[1..])
  {
  }

  /** The notification service: the ledger slot in `localStorage` and the
      notifications the browser has shown. */
  class NotificationCenter {
    var slot: Option<StoredIds>
    var shown: seq<Notice>

    constructor(slot: Option<StoredIds>)
      ensures this.slot == slot && shown == []
    {
      this.slot := slot;
      shown := [];
    }

    function State(): NotifierState
      reads this
    {
      NotifierState(slot, shown)
    }

    /** `getNotifiedEarthquakes` */
    function GetNotifiedEarthquakes(): (ids: seq<string>)
      reads this
      ensures slot.None? || slot == Some(Unparseable) ==> ids == []
      ensures slot.Some? && slot.value.Ids? ==> ids == slot.value.ids
    {
      ReadNotified(slot)
    }

    /** `hasBeenNotified` */
    function HasBeenNotified(id: string): (b: bool)
      reads this
      ensures b <==> slot.Some? && slot.value.Ids? && id in slot.value.ids
    {
      id in GetNotifiedEarthquakes()
    }

    /** `checkIfNotified`: the same answer as `hasBeenNotified`. */
    function CheckIfNotified(id: string): (b: bool)
      reads this
      ensures b == HasBeenNotified(id)
    {
      HasBeenNotified(id)
    }

    /** `markAsNotified` */
    method MarkAsNotified(id: string)
      modifies this
      ensures slot == Some(Ids(Remember(old(GetNotifiedEarthquakes()), id)))
      ensures shown == old(shown)
    {
      var notified := GetNotifiedEarthquakes();
      notified := notified + [id];
      var recent := KeepLast(notified);
      slot := Some(Ids(recent));
    }

    /** `sendEarthquakeNotification` */
    method SendEarthquakeNotification(e: Earthquake, permission: Permission)
      modifies this
      ensures State() == Send(old(State()), e, permission)
    {
      if permission != Granted {
        return;
      }
      if HasBeenNotified(e.id) {
        return;
      }
      shown := shown + [Notice(e, e.id, e.magnitude >= 6.0)];
      MarkAsNotified(e.id);
    }
  }
}
