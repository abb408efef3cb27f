/**
 * The device-local anti-spam guard (lib/cooldown.ts): at most three
 * submissions in a sliding window of thirty minutes, kept as a list of
 * millisecond timestamps in one secure-storage entry.
 *
 * `CanSubmit` is the pure decision on what was read from storage;
 * `HistorySlot` is the storage entry itself, and its `RecordSubmission`
 * is the read-modify-write of the source. The clock is a parameter.
 */
module Cooldown {
  import opened Types

  const WindowMs: int := 30 * 60 * 1000
  const MaxSubmissions: nat := 3

  /**
   * What reading the storage entry yields: nothing stored (a missing or
   * empty entry), an entry that cannot be read or is not a JSON array,
   * or a list of timestamps.
   */
  datatype StoredHistory = Missing | Unreadable | Timestamps(ts: seq<int>)

  datatype Decision = Allowed | Refused(retryAfterSec: int)

  /** The history the guard works on; `None` is the path into the `catch` block. */
  function History(stored: StoredHistory): (h: Option<seq<int>>)
    ensures stored.Missing? ==> h == Some([])
    ensures stored.Unreadable? <==> h.None?
    ensures stored.Timestamps? ==> h == Some(stored.ts)
  {
    match stored
    case Missing => Some([])
    case Unreadable => None
    case Timestamps(ts) => Some(ts)
  }

  /** A timestamp counts toward the limit at `now` iff it is less than a window old (strictly). */
  predicate InWindow(now: int, t: int) {
    now - t < WindowMs
  }

  /** The `filter` of the source: the timestamps still in the window, in their stored order. */
  function Recent(ts: seq<int>, now: int): (r: seq<int>)
    ensures |r| <= |ts|
    ensures forall t :: t in r <==> t in ts && InWindow(now, t)
  {
    if ts == [] then []
    else (if InWindow(now, ts[0]) then [ts[0]] else []) + Recent(ts[1..], now)
  }

  function MinOf(s: seq<int>): (m: int)
    requires |s| > 0
    ensures m in s && forall x :: x in s ==> m <= x
  {
    if |s| == 1 then s[0]
    else
      var rest := MinOf(s[1..]);
      assert s == [s[0]] + s[1..];
      if s[0] <= rest then s[0] else rest
  }

  /** `Math.ceil(a / b)` for a positive divisor: the least q with a <= b * q. */
  function CeilDiv(a: int, b: int): (q: int)
    requires b > 0
    ensures b * (q - 1) < a <= b * q
  {
    var f := (-a) / b;
    assert -a == b * f + (-a) % b;
    -f
  }

  /** canSubmit, on what was read from storage at time `now`. */
  function CanSubmit(stored: StoredHistory, now: int): (d: Decision)
    ensures d == Allowed <==> History(stored).None? || |Recent(History(stored).value, now)| < MaxSubmissions
    ensures d.Refused? ==>
      var oldest := MinOf(Recent(stored.ts, now));
      // the wait is whole seconds, at least one, and exactly long enough for the oldest entry to leave
      && d.retryAfterSec >= 1
      && !InWindow(now + 1000 * d.retryAfterSec, oldest)
      && InWindow(now + 1000 * (d.retryAfterSec - 1), oldest)
  {
    match History(stored)
    case None => Allowed
    case Some(ts) =>
      var inWindow := Recent(ts, now);
      if |inWindow| >= MaxSubmissions then
        Refused(CeilDiv(MinOf(inWindow) + WindowMs - now, 1000))
      else Allowed
  }

  /** A refused wait never exceeds the window, unless some stored timestamp lies in the future. */
  lemma RetryAtMostWindow(ts: seq<int>, now: int)
    requires forall t :: t in ts ==> t <= now
    requires CanSubmit(Timestamps(ts), now).Refused?
    ensures CanSubmit(Timestamps(ts), now).retryAfterSec <= WindowMs / 1000
  {
    var oldest := MinOf(Recent(ts, now));
    assert oldest in ts;
  }

  /** Recent keeps the order: filtering a concatenation filters each part. */
  lemma {:induction false} RecentAppend(a: seq<int>, b: seq<int>, now: int)
    ensures Recent(a + b, now) == Recent(a, now) + Recent(b, now)
  {
    if a == [] {
      assert a + b == b;
    } else {
      assert (a + b)[1..] == a[1..] + b;
      RecentAppend(a[1..], b, now);
    }
  }

  /** Filtering twice at the same instant changes nothing. */
  lemma {:induction false} RecentIdempotent(ts: seq<int>, now: int)
    ensures Recent(Recent(ts, now), now) == Recent(ts, now)
  {
    if ts != [] {
      var head := if InWindow(now, ts[0]) then [ts[0]] else [];
      RecentAppend(head, Recent(ts[1..], now), now);
      RecentIdempotent(ts[1..], now);
    }
  }

  /** The list `RecordSubmission` writes back: the in-window entries in order, then `now`. */
  function Recorded(ts: seq<int>, now: int): (r: seq<int>)
    ensures |r| >= 1 && r[|r| - 1] == now && r[..|r| - 1] == Recent(ts, now)
  {
    Recent(ts, now) + [now]
  }

  /** After a recorded submission, the guard at the same instant sees one more entry in the window. */
  lemma RecordAddsOne(ts: seq<int>, now: int)
    ensures |Recent(Recorded(ts, now), now)| == |Recent(ts, now)| + 1
  {
    RecentAppend(Recent(ts, now), [now], now);
    RecentIdempotent(ts, now);
  }

  /** Time only removes entries from the window: one that left makes the count drop. */
  lemma {:induction false} RecentShrinks(ts: seq<int>, now: int, later: int, x: int)
    requires now <= later && x in ts && InWindow(now, x) && !InWindow(later, x)
    ensures |Recent(ts, later)| < |Recent(ts, now)|
  {
    if ts[0] != x {
      RecentShrinks(ts[1..], now, later, x);
    } else {
      RecentMonotone(ts[1..], now, later);
    }
  }

  lemma {:induction false} RecentMonotone(ts: seq<int>, now: int, later: int)
    requires now <= later
    ensures |Recent(ts, later)| <= |Recent(ts, now)|
  {
    if ts != [] {
      RecentMonotone(ts[1..], now, later);
    }
  }

  /** Three or more entries in the window are refused. */
  lemma FullWindowRefused(ts: seq<int>, now: int)
    requires |Recent(ts, now)| >= MaxSubmissions
    ensures CanSubmit(Timestamps(ts), now).Refused?
  {
  }

  /**
   * With exactly three entries in the window, waiting the refused wait is
   * enough: `wait` seconds later the guard allows again.
   */
  lemma WaitingSuffices(ts: seq<int>, now: int, wait: int)
    requires |Recent(ts, now)| == MaxSubmissions
    requires CanSubmit(Timestamps(ts), now) == Refused(wait)
    ensures CanSubmit(Timestamps(ts), now + 1000 * wait) == Allowed
  {
    OldestLeaves(ts, now, wait);
    LeavingReopens(ts, now, now + 1000 * wait, MinOf(Recent(ts, now)));
  }

  /** Once one of exactly three entries has left the window, the guard allows. */
  lemma LeavingReopens(ts: seq<int>, now: int, later: int, x: int)
    requires |Recent(ts, now)| == MaxSubmissions
    requires now <= later && x in ts && InWindow(now, x) && !InWindow(later, x)
    ensures CanSubmit(Timestamps(ts), later) == Allowed
  {
    RecentShrinks(ts, now, later, x);
    BelowLimitAllowed(ts, later);
  }

  /** The oldest entry in the window is stored, and it has left the window once the refused wait is over. */
  lemma OldestLeaves(ts: seq<int>, now: int, wait: int)
    requires CanSubmit(Timestamps(ts), now) == Refused(wait)
    ensures var oldest := MinOf(Recent(ts, now));
      && oldest in ts && InWindow(now, oldest)
      && now <= now + 1000 * wait && !InWindow(now + 1000 * wait, oldest)
  {
  }

  lemma BelowLimitAllowed(ts: seq<int>, now: int)
    requires |Recent(ts, now)| < MaxSubmissions
    ensures CanSubmit(Timestamps(ts), now) == Allowed
  {
  }

  /**
   * What the storage entry holds after recordSubmission at `now`: an
   * unreadable entry is left alone (the `catch` swallows the failure); a
   * readable one is replaced by the recorded list if the write succeeds.
   */
  function AfterRecord(stored: StoredHistory, now: int, writeSucceeds: bool): (r: StoredHistory)
    ensures History(stored).None? || !writeSucceeds ==> r == stored
    ensures History(stored).Some? && writeSucceeds ==> r == Timestamps(Recorded(History(stored).value, now))
  {
    match History(stored)
    case None => stored
    case Some(ts) => if writeSucceeds then Timestamps(Recorded(ts, now)) else stored
  }

  /** The secure-storage entry the guard reads and writes. */
  class HistorySlot {
    var stored: StoredHistory

    constructor (initial: StoredHistory)
      ensures stored == initial
    {
      stored := initial;
    }

    /**
     * recordSubmission at time `now`. `writeSucceeds` is whether the
     * storage write goes through; every failure is swallowed, so the
     * method has no error result.
     */
    method RecordSubmission(now: int, writeSucceeds: bool)
      modifies this
      ensures stored == AfterRecord(old(stored), now, writeSucceeds)
    {
      var raw := History(stored);
      if raw.None? {
        return;
      }
      var inWindow := Recent(raw.value, now);
      inWindow := inWindow + [now];
      if writeSucceeds {
        stored := Timestamps(inWindow);
      }
    }
  }

  /** A recorded submission counts against the next check at the same instant. */
  lemma AfterRecordCounts(stored: StoredHistory, now: int)
    requires History(stored).Some?
    ensures |Recent(History(AfterRecord(stored, now, true)).value, now)| == |Recent(History(stored).value, now)| + 1
  {
    RecordAddsOne(History(stored).value, now);
  }

  /** Missing storage is an empty history and unreadable storage fails open. */
  lemma UnreadableFailsOpen(now: int)
    ensures CanSubmit(Unreadable, now) == Allowed
    ensures CanSubmit(Missing, now) == Allowed
  {
  }
}
