/**
 * A reference reading of the remote datastore's query semantics, as far
 * as the client code relies on them: equality and range conditions on
 * incident columns, all of which must hold; ordering by `occurred_at`
 * newest first; and an inclusive row range `[from, to]` of that order.
 * The datastore itself (its storage, authorization and procedures) is
 * not part of this model.
 */
module Datastore {
  import opened Types

  /** One filter call of the query builder (`eq`, `gte`, `lte`). */
  datatype Condition =
    | StatusIs(status: Status)
    | CategoryIs(category: Category)
    | IdIs(id: string)
    | OccurredAtLeast(from: int)
    | LatAtLeast(minLat: real)
    | LatAtMost(maxLat: real)
    | LonAtLeast(minLon: real)
    | LonAtMost(maxLon: real)

  predicate Holds(c: Condition, x: Incident) {
    match c
    case StatusIs(s) => x.status == s
    case CategoryIs(k) => x.category == k
    case IdIs(i) => x.id == i
    case OccurredAtLeast(t) => x.occurredAt >= t
    case LatAtLeast(v) => x.lat >= v
    case LatAtMost(v) => x.lat <= v
    case LonAtLeast(v) => x.lon >= v
    case LonAtMost(v) => x.lon <= v
  }

  /** Chained filters are a conjunction. */
  predicate HoldsAll(conds: seq<Condition>, x: Incident) {
    forall i | 0 <= i < |conds| :: Holds(conds[i], x)
  }

  /** The rows of `table` that `keep` accepts, in table order. */
  function Select(table: seq<Incident>, keep: Incident -> bool): (r: seq<Incident>)
    ensures |r| <= |table|
    ensures forall x :: x in r <==> x in table && keep(x)
  {
    if table == [] then []
    else (if keep(table[0]) then [table[0]] else []) + Select(table[1..], keep)
  }

  /** Selections by two predicates that agree on every row are the same. */
  lemma {:induction false} SelectAgrees(table: seq<Incident>, p: Incident -> bool, q: Incident -> bool)
    requires forall x :: x in table ==> p(x) == q(x)
    ensures Select(table, p) == Select(table, q)
  {
    if table != [] {
      SelectAgrees(table[1..], p, q);
    }
  }

  predicate SortedDesc(rows: seq<Incident>) {
    forall i, j | 0 <= i < j < |rows| :: rows[i].occurredAt >= rows[j].occurredAt
  }

  /** Inserts `x` before the first row that is not newer than it. */
  function InsertDesc(x: Incident, rows: seq<Incident>): (r: seq<Incident>)
    requires SortedDesc(rows)
    ensures |r| == |rows| + 1
    ensures forall k | 0 <= k < |r| :: r[k] == x || r[k] in rows
    ensures SortedDesc(r)
    ensures multiset(r) == multiset(rows) + multiset{x}
  {
    if rows == [] || rows[0].occurredAt <= x.occurredAt then [x] + rows
    else
      var rest := InsertDesc(x, rows[1..]);
      BehindHead(x, rows, rest);
      [rows[0]] + rest
  }

  /**
   * The step of the insertion: a row newer than `x` stays in front of
   * the insertion into the rest of a sorted listing.
   */
  lemma BehindHead(x: Incident, rows: seq<Incident>, rest: seq<Incident>)
    requires SortedDesc(rows) && rows != [] && rows[0].occurredAt > x.occurredAt
    requires forall k | 0 <= k < |rest| :: rest[k] == x || rest[k] in rows[1..]
    requires SortedDesc(rest)
    requires multiset(rest) == multiset(rows[1..]) + multiset{x}
    ensures forall k | 0 <= k < |rest| + 1 :: ([rows[0]] + rest)[k] == x || ([rows[0]] + rest)[k] in rows
    ensures SortedDesc([rows[0]] + rest)
    ensures multiset([rows[0]] + rest) == multiset(rows) + multiset{x}
  {
    assert rows == [rows[0]] + rows[1..];
    forall k | 0 <= k < |rest|
      ensures rows[0].occurredAt >= rest[k].occurredAt
    {
      if rest[k] != x {
        var j :| 0 <= j < |rows[1..]| && rows[1..][j] == rest[k];
        assert rows[1 + j] == rest[k];
      }
    }
    ConsSorted(rows[0], rest);
  }

  /** A row no older than every row of a sorted listing can go in front of it. */
  lemma ConsSorted(h: Incident, rest: seq<Incident>)
    requires SortedDesc(rest)
    requires forall k | 0 <= k < |rest| :: h.occurredAt >= rest[k].occurredAt
    ensures SortedDesc([h] + rest)
  {
    var r := [h] + rest;
    forall i, j | 0 <= i < j < |r|
      ensures r[i].occurredAt >= r[j].occurredAt
    {
      assert r[j] == rest[j - 1];
      if i > 0 {
        assert r[i] == rest[i - 1];
      }
    }
  }

  /** `order('occurred_at', { ascending: false })`: newest first, a permutation of the input. */
  function SortDesc(rows: seq<Incident>): (r: seq<Incident>)
    ensures SortedDesc(r)
    ensures multiset(r) == multiset(rows)
  {
    if rows == [] then []
    else
      assert rows == [rows[0]] + rows[1..];
      InsertDesc(rows[0], SortDesc(rows[1..]))
  }

  /** `range(from, to)`: the rows at positions `from` to `to` inclusive, as far as they exist. */
  function Range(rows: seq<Incident>, from: int, to: int): (r: seq<Incident>)
    requires 0 <= from <= to + 1
    ensures |r| == if from >= |rows| then 0 else (if to + 1 < |rows| then to + 1 else |rows|) - from
    ensures forall k | 0 <= k < |r| :: r[k] == rows[from + k]
  {
    if from >= |rows| then []
    else rows[from..if to + 1 < |rows| then to + 1 else |rows|]
  }

  /** A range holds rows of the input only, and a range of a sorted input is sorted. */
  lemma RangeOfRows(rows: seq<Incident>, from: int, to: int)
    requires 0 <= from <= to + 1
    ensures forall x | x in Range(rows, from, to) :: x in rows
    ensures SortedDesc(rows) ==> SortedDesc(Range(rows, from, to))
  {
    var r := Range(rows, from, to);
    forall x | x in r
      ensures x in rows
    {
      var k :| 0 <= k < |r| && r[k] == x;
      assert rows[from + k] == x;
    }
  }

  /** The media rows of incident `id`, in table order (an embedded `media(*)` select and the moderation grouping). */
  function MediaOf(media: seq<MediaRow>, id: string): (r: seq<MediaRow>)
    ensures forall m :: m in r <==> m in media && m.incidentId == id
  {
    if media == [] then []
    else (if media[0].incidentId == id then [media[0]] else []) + MediaOf(media[1..], id)
  }

  /** The rows a query returns: those meeting every condition, newest first, cut to the range. */
  function Run(table: seq<Incident>, conds: seq<Condition>, from: int, to: int): seq<Incident>
    requires 0 <= from <= to + 1
  {
    Range(SortDesc(Select(table, x => HoldsAll(conds, x))), from, to)
  }
}
