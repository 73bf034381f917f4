/** The novelty and throttle decision of the live shoplifting alert
    (src/components/ShopliftingAlert.jsx): which fetched alerts are new enough
    to surface, the insertion-ordered processed-id collection it consults, the
    persisted "processedAlerts" list, and the capacity eviction of the
    collection. */
module AlertFilter {
  import opened Common

  type AlertId = int

  /** An alert as the backend reports it. */
  datatype Alert = Alert(id: AlertId, cameraId: string, cameraName: string,
                         thumbnail: Option<string>, timestamp: int)

  /** Minimum spacing between two accepted alerts, in milliseconds. */
  const ThrottleMs := 30000
  /** The eviction sweep acts once the collection holds more ids than this... */
  const EvictAbove := 100
  /** ... and then keeps only this many of the most recently inserted ids. */
  const EvictKeep := 50

  /** `set.add(id)` on an insertion-ordered set: a new id goes to the end, a
      present one changes nothing. */
  function Remember(p: seq<AlertId>, id: AlertId): (r: seq<AlertId>)
    requires Distinct(p)
    ensures Distinct(r)
    ensures |p| <= |r| <= |p| + 1 && r[..|p|] == p
    ensures forall x :: x in r <==> x in p || x == id
  {
    if id in p then p else p + [id]
  }

  /** The persisted "processedAlerts" entry as the alert component finds it:
      absent (read as `'[]'`), a parsed list, or something `JSON.parse` or
      `includes` throws on. */
  datatype StoredIds = Missing | Ids(ids: seq<AlertId>) | Unreadable

  /** The persisted list as read, or `None` when reading it throws. */
  function ReadStored(st: StoredIds): (r: Option<seq<AlertId>>)
    ensures r.None? <==> st.Unreadable?
    ensures st.Missing? ==> r == Some([])
  {
    match st
    case Missing => Some([])
    case Ids(ids) => Some(ids)
    case Unreadable => None
  }

  /** The id is found in the persisted list; an unreadable list finds nothing. */
  predicate PersistedHit(st: StoredIds, id: AlertId) {
    var r := ReadStored(st);
    r.Some? && id in r.value
  }

  /** `lastAlertTime && (now - lastAlertTime < 30000)`: a time of 0 is falsy in
      JavaScript, so it never throttles. */
  predicate Throttled(lastAlertTime: Option<int>, now: int) {
    lastAlertTime.Some? && lastAlertTime.value != 0 && now - lastAlertTime.value < ThrottleMs
  }

  /** The three memories consulted by the novelty decision. */
  datatype FilterState = FilterState(processed: seq<AlertId>,
                                     lastAlertId: Option<AlertId>,
                                     lastAlertTime: Option<int>)

  /** Outcome of `shouldProcessAlert`: the answer and the processed collection
      after its side effect. */
  datatype Verdict = Verdict(accept: bool, processed: seq<AlertId>)

  /** An alert already seen: in memory, equal to the last alert id, or in the
      persisted list. */
  predicate Seen(f: FilterState, st: StoredIds, id: AlertId) {
    id in f.processed || f.lastAlertId == Some(id) || PersistedHit(st, id)
  }

  /** `shouldProcessAlert`: the ordered checks of the source. Only a hit in the
      persisted list (after the two in-memory checks pass) changes the
      collection, by adding the id; an unreadable list is skipped. */
  function ShouldProcess(f: FilterState, st: StoredIds, id: AlertId, now: int): (v: Verdict)
    requires Distinct(f.processed)
    ensures Distinct(v.processed)
    ensures v.accept <==> !Seen(f, st, id) && !Throttled(f.lastAlertTime, now)
    ensures v.accept ==> v.processed == f.processed
    ensures forall x :: x in v.processed <==>
              x in f.processed || (x == id && f.lastAlertId != Some(id) && PersistedHit(st, id))
    ensures |f.processed| <= |v.processed| && v.processed[..|f.processed|] == f.processed
  {
    if id in f.processed then Verdict(false, f.processed)
    else if f.lastAlertId == Some(id) then Verdict(false, f.processed)
    else
      var stored := ReadStored(st);
      if stored.Some? && id in stored.value then Verdict(false, Remember(f.processed, id))
      else if Throttled(f.lastAlertTime, now) then Verdict(false, f.processed)
      else Verdict(true, f.processed)
  }

  /** The cleanup sweep: over 100 ids, keep the 50 most recently inserted. */
  function Evict(p: seq<AlertId>): (r: seq<AlertId>)
    ensures |p| <= EvictAbove ==> r == p
    ensures |p| > EvictAbove ==> |r| == EvictKeep && p[|p| - EvictKeep..] == r
  {
    if |p| > EvictAbove then p[|p| - EvictKeep..] else p
  }

  /** The sweep keeps the collection a set, never invents ids, never lets it
      grow, keeps the survivors in insertion order, and drops only ids
      inserted before every survivor. */
  lemma EvictKeepsNewest(p: seq<AlertId>)
    requires Distinct(p)
    ensures Distinct(Evict(p))
    ensures forall x :: x in Evict(p) ==> x in p
    ensures |Evict(p)| <= EvictAbove
    ensures exists k :: 0 <= k <= |p| && Evict(p) == p[k..]
  {
    if |p| > EvictAbove {
      assert Evict(p) == p[|p| - EvictKeep..];
    } else {
      assert Evict(p) == p[0..];
    }
  }

  /** Eviction can forget an id that was accepted earlier: once forgotten, the
      same id (if it is not the last alert id and not persisted) passes the
      novelty check again. The dedup promise therefore holds only while the
      id stays in the collection. */
  lemma EvictionForgetsAcceptedId(p: seq<AlertId>, id: AlertId, now: int)
    requires Distinct(p) && |p| > EvictAbove && p[0] == id
    ensures id !in Evict(p)
    ensures ShouldProcess(FilterState(Evict(p), None, None), Missing, id, now).accept
  {
    var r := Evict(p);
    forall j | 0 <= j < |r| ensures r[j] != id {
      assert r[j] == p[|p| - EvictKeep + j];
    }
  }
}
