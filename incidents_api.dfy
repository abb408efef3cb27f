/**
 * The public read path (lib/incidents-api.ts): `FetchIncidents` builds a
 * query of approved incidents, optionally narrowed by category, by an
 * inclusive lower time bound and by an inclusive bounding box, ordered
 * newest first and cut to one page; `FetchIncidentById` reads one
 * approved incident with its media.
 *
 * The datastore is the reference evaluator of module `Datastore`; whether
 * its call fails is a parameter, as are the clock (`now`) and the local
 * midnight of today (`localMidnight`), both in milliseconds.
 */
module IncidentsApi {
  import opened Types
  import opened Datastore

  const DayMs: int := 24 * 60 * 60 * 1000
  const DefaultPage: int := 0
  const DefaultPageSize: int := 20

  /** The visible map area; `ne` is the north-east corner, `sw` the south-west one. */
  datatype BoundingBox = BoundingBox(neLat: real, neLon: real, swLat: real, swLon: real)

  /** The filters the read path uses; an absent or null filter is `None`. */
  datatype IncidentFilters = IncidentFilters(category: Option<Category>, timeRange: Option<TimeRange>)

  const NoFilters: IncidentFilters := IncidentFilters(None, None)

  /** The optional parameters of `fetchIncidents`; a missing one is `None`. */
  datatype FetchParams = FetchParams(
    filters: Option<IncidentFilters>,
    bbox: Option<BoundingBox>,
    page: Option<int>,
    pageSize: Option<int>)

  datatype Page = Page(data: seq<Incident>, hasMore: bool)

  /** An incident read with its media rows embedded (`select('*, media(*)')`). */
  datatype IncidentWithMedia = IncidentWithMedia(incident: Incident, media: seq<MediaRow>)

  function FiltersOf(p: FetchParams): IncidentFilters {
    if p.filters.Some? then p.filters.value else NoFilters
  }

  function PageOf(p: FetchParams): int {
    if p.page.Some? then p.page.value else DefaultPage
  }

  function PageSizeOf(p: FetchParams): int {
    if p.pageSize.Some? then p.pageSize.value else DefaultPageSize
  }

  /** The lower time bound of a time-range filter: local midnight, or 7 or 30 days back. */
  function TimeFrom(range: TimeRange, now: int, localMidnight: int): (from: int)
    ensures range == SevenDays ==> now - from == 604_800_000
    ensures range == ThirtyDays ==> now - from == 2_592_000_000
    ensures range == Today ==> from == localMidnight
  {
    match range
    case Today => localMidnight
    case SevenDays => now - 7 * DayMs
    case ThirtyDays => now - 30 * DayMs
  }

  predicate InBox(b: BoundingBox, x: Incident) {
    b.swLat <= x.lat <= b.neLat && b.swLon <= x.lon <= b.neLon
  }

  /**
   * What a row must satisfy to be listed: it is approved, has the chosen
   * category if one is set, occurred no earlier than the time bound if one
   * is set, and lies in the box (borders included) if one is given.
   */
  predicate Matches(f: IncidentFilters, bbox: Option<BoundingBox>, now: int, localMidnight: int, x: Incident) {
    && x.status == Approved
    && (f.category.Some? ==> x.category == f.category.value)
    && (f.timeRange.Some? ==> x.occurredAt >= TimeFrom(f.timeRange.value, now, localMidnight))
    && (bbox.Some? ==> InBox(bbox.value, x))
  }

  /** All matching rows, newest first: the order the pages are cut from. */
  function Listing(table: seq<Incident>, p: FetchParams, now: int, localMidnight: int): (r: seq<Incident>)
    ensures SortedDesc(r)
    ensures forall x :: x in r <==> x in table && Matches(FiltersOf(p), p.bbox, now, localMidnight, x)
  {
    var keep := x => Matches(FiltersOf(p), p.bbox, now, localMidnight, x);
    var r := SortDesc(Select(table, keep));
    forall x
      ensures x in r <==> x in Select(table, keep)
    {
      assert x in r <==> x in multiset(r);
      assert x in Select(table, keep) <==> x in multiset(Select(table, keep));
    }
    r
  }

  /**
   * The query builder: the conditions chained onto the query, one `if`
   * block at a time. Together they hold of exactly the matching rows.
   */
  method BuildQuery(f: IncidentFilters, bbox: Option<BoundingBox>, now: int, localMidnight: int)
    returns (conds: seq<Condition>)
    ensures forall x :: HoldsAll(conds, x) <==> Matches(f, bbox, now, localMidnight, x)
  {
    conds := [StatusIs(Approved)];
    if f.category.Some? {
      conds := conds + [CategoryIs(f.category.value)];
    }
    if f.timeRange.Some? {
      var from := TimeFrom(f.timeRange.value, now, localMidnight);
      conds := conds + [OccurredAtLeast(from)];
    }
    if bbox.Some? {
      var b := bbox.value;
      conds := conds + [LatAtLeast(b.swLat), LatAtMost(b.neLat), LonAtLeast(b.swLon), LonAtMost(b.neLon)];
    }
    forall x
      ensures HoldsAll(conds, x) <==> Matches(f, bbox, now, localMidnight, x)
    {
      if HoldsAll(conds, x) {
        assert Holds(conds[0], x);
        if f.category.Some? {
          assert Holds(conds[1], x);
        }
        if f.timeRange.Some? {
          var k := if f.category.Some? then 2 else 1;
          assert Holds(conds[k], x);
        }
        if bbox.Some? {
          var k := |conds| - 4;
          assert Holds(conds[k], x) && Holds(conds[k + 1], x) && Holds(conds[k + 2], x) && Holds(conds[k + 3], x);
        }
      }
    }
  }

  /**
   * fetchIncidents. `failure` is the error the datastore reports, if any;
   * it is thrown, here returned as `Err`. Otherwise the page is rows
   * `page * pageSize` to `page * pageSize + pageSize - 1` of the listing,
   * and `hasMore` says whether the page came back full.
   */
  method FetchIncidents(table: seq<Incident>, p: FetchParams, now: int, localMidnight: int, failure: Option<string>)
    returns (r: Result<Page>)
    requires PageOf(p) >= 0 && PageSizeOf(p) >= 0
    ensures failure.Some? ==> r == Err(failure.value)
    ensures failure.None? ==>
      var from := PageOf(p) * PageSizeOf(p);
      && r.Ok?
      && r.value.data == Range(Listing(table, p, now, localMidnight), from, from + PageSizeOf(p) - 1)
      && r.value.hasMore == (|r.value.data| == PageSizeOf(p))
  {
    var f := FiltersOf(p);
    var page := PageOf(p);
    var pageSize := PageSizeOf(p);
    var conds := BuildQuery(f, p.bbox, now, localMidnight);
    var from := page * pageSize;
    var to := from + pageSize - 1;
    if failure.Some? {
      return Err(failure.value);
    }
    RunIsListing(table, conds, p, now, localMidnight, from, to);
    var list := Run(table, conds, from, to);
    return Ok(Page(list, |list| == pageSize));
  }

  /** Running conditions that hold of exactly the matching rows cuts the range from the listing. */
  lemma RunIsListing(table: seq<Incident>, conds: seq<Condition>, p: FetchParams, now: int, localMidnight: int, from: int, to: int)
    requires 0 <= from <= to + 1
    requires forall x :: HoldsAll(conds, x) <==> Matches(FiltersOf(p), p.bbox, now, localMidnight, x)
    ensures Run(table, conds, from, to) == Range(Listing(table, p, now, localMidnight), from, to)
  {
    SelectAgrees(table, x => HoldsAll(conds, x), x => Matches(FiltersOf(p), p.bbox, now, localMidnight, x));
  }

  /**
   * Every row of a page (any range of the listing) is a stored row that
   * is approved and meets every filter, and a page is newest first.
   */
  lemma ListedRangeMatches(table: seq<Incident>, p: FetchParams, now: int, localMidnight: int, from: int, to: int)
    requires 0 <= from <= to + 1
    ensures var data := Range(Listing(table, p, now, localMidnight), from, to);
      && SortedDesc(data)
      && forall x | x in data :: x in table && x.status == Approved && Matches(FiltersOf(p), p.bbox, now, localMidnight, x)
  {
    RangeOfRows(Listing(table, p, now, localMidnight), from, to);
  }

  /**
   * A page holds at most `pageSize` rows, and it is full (so `hasMore`)
   * exactly when the listing reaches past its end: at least
   * `(page + 1) * pageSize` rows match. In particular a last page that
   * happens to be exactly full still reports `hasMore`.
   */
  lemma PageSizeAndHasMore(rows: seq<Incident>, page: int, pageSize: int)
    requires page >= 0 && pageSize >= 0
    ensures
      var from := page * pageSize;
      var data := Range(rows, from, from + pageSize - 1);
      && |data| <= pageSize
      && (|data| == pageSize <==> |rows| >= (page + 1) * pageSize)
  {
    var from := page * pageSize;
    assert (page + 1) * pageSize == from + pageSize;
  }

  /** Two consecutive pages together are the rows of one range twice as long: no row is skipped or repeated. */
  lemma ConsecutivePages(rows: seq<Incident>, page: int, pageSize: int)
    requires page >= 0 && pageSize >= 0
    ensures
      var from := page * pageSize;
      var next := (page + 1) * pageSize;
      Range(rows, from, from + pageSize - 1) + Range(rows, next, next + pageSize - 1)
        == Range(rows, from, from + 2 * pageSize - 1)
  {
    var from := page * pageSize;
    var next := (page + 1) * pageSize;
    assert next == from + pageSize;
    var a := Range(rows, from, from + pageSize - 1);
    var b := Range(rows, next, next + pageSize - 1);
    var c := Range(rows, from, from + 2 * pageSize - 1);
    assert |a + b| == |c|;
    forall k | 0 <= k < |c|
      ensures (a + b)[k] == c[k]
    {
      if k >= |a| {
        assert (a + b)[k] == b[k - |a|];
      }
    }
  }

  /** Without filters and box, the listing is exactly the approved rows. */
  lemma NoFiltersListsAllApproved(table: seq<Incident>, page: Option<int>, pageSize: Option<int>, now: int, localMidnight: int, x: Incident)
    ensures x in Listing(table, FetchParams(None, None, page, pageSize), now, localMidnight) <==> x in table && x.status == Approved
  {
  }

  /**
   * fetchIncidentById. `.single()` fails unless exactly one row matches
   * the id and is approved; that failure, like a reported `failure`, gives
   * `None`.
   */
  function FetchIncidentById(table: seq<Incident>, media: seq<MediaRow>, id: string, failure: Option<string>)
    : (r: Option<IncidentWithMedia>)
    ensures r.Some? <==> failure.None? && |Select(table, (x: Incident) => x.id == id && x.status == Approved)| == 1
    ensures r.Some? ==>
      && r.value.incident in table
      && r.value.incident.id == id
      && r.value.incident.status == Approved
      && forall m :: m in r.value.media <==> m in media && m.incidentId == id
  {
    var rows := Select(table, (x: Incident) => x.id == id && x.status == Approved);
    if failure.Some? || |rows| != 1 then None
    else
      assert rows[0] in rows;
      Some(IncidentWithMedia(rows[0], MediaOf(media, id)))
  }
}
