/**
 * The review step of the report wizard (app/report/review.tsx): the
 * submit path checks the draft is complete, asks the cooldown, inserts
 * one pending row with rounded coordinates, records the submission and
 * resets the draft, in that order.
 *
 * `roundCoordsForPrivacy` is a parameter `round`, as are the two clock
 * readings (the cooldown check and the recording each read the clock),
 * the insert's answer and whether the cooldown write succeeds.
 */
module ReviewStep {
  import opened Types
  import opened Text
  import ReportStore
  import Cooldown
  import IncidentsApi

  const IncompleteMessage: string := "Bitte fülle alle Schritte aus."

  /** The row sent to the `incidents` table. */
  datatype IncidentInsert = IncidentInsert(
    category: Category,
    description: string,
    occurredAt: string,
    lat: real,
    lon: real,
    precisionM: int,
    regionText: Option<string>,
    status: Status)

  /** The insert's answer: an error message, or the new row's `id` (if the answer carries one). */
  datatype InsertResult = InsertError(message: string) | Inserted(id: Option<string>)

  /** How a press of "Submit" ends. */
  datatype SubmitOutcome =
    | Incomplete
    | RateLimited(waitMinutes: int)
    | InsertFailed(message: string)
    | Submitted(id: string)

  /** The backend and storage steps, in the order they happen. */
  datatype Effect = CheckCooldown | Insert(row: IncidentInsert) | RecordSubmission | ResetDraft

  /**
   * The completeness test: category, coordinates, precision and time are
   * set, the time is not the empty string, and the description is not
   * blank after trimming.
   */
  predicate Complete(d: ReportStore.ReportDraft) {
    && d.category.Some?
    && d.lat.Some? && d.lon.Some? && d.precisionM.Some?
    && d.occurredAt.Some? && d.occurredAt.value != ""
    && Trim(d.description) != ""
  }

  /** `rounded`: the privacy-rounded point, when the draft has coordinates and a precision. */
  function Rounded(d: ReportStore.ReportDraft, round: (real, real, int) -> Coord): (r: Option<Coord>)
    ensures r.Some? <==> d.lat.Some? && d.lon.Some? && d.precisionM.Some?
    ensures r.Some? ==> r.value == round(d.lat.value, d.lon.value, d.precisionM.value)
  {
    if d.lat.Some? && d.lon.Some? && d.precisionM.Some? then
      Some(round(d.lat.value, d.lon.value, d.precisionM.value))
    else None
  }

  /** The row a complete draft is submitted as. */
  function InsertRow(d: ReportStore.ReportDraft, round: (real, real, int) -> Coord): IncidentInsert
    requires Complete(d)
  {
    var p := Rounded(d, round).value;
    IncidentInsert(d.category.value, Trim(d.description), d.occurredAt.value, p.lat, p.lon,
                   d.precisionM.value, None, Pending)
  }

  /**
   * The inserted row is pending, has no region, carries the trimmed
   * description and the rounded point, never the raw one unless rounding
   * returns it, and does not depend on the attached media.
   */
  lemma InsertRowContents(d: ReportStore.ReportDraft, round: (real, real, int) -> Coord, media: seq<MediaAttachment>)
    requires Complete(d)
    ensures var row := InsertRow(d, round);
      && row.status == Pending && row.regionText == None
      && row.category == d.category.value && row.occurredAt == d.occurredAt.value
      && row.description == Trim(d.description) && row.description != ""
      && Coord(row.lat, row.lon) == round(d.lat.value, d.lon.value, d.precisionM.value)
      && row.precisionM == d.precisionM.value
      && InsertRow(d.(mediaUris := media), round) == row
  {
  }

  /**
   * A freshly submitted row, whatever its id and timestamp, is not listed
   * by the public read path under any filters: only approved rows are.
   */
  lemma InsertedRowIsNotListed(row: IncidentInsert, id: string, occurredMs: int,
                               f: IncidentsApi.IncidentFilters, bbox: Option<IncidentsApi.BoundingBox>,
                               now: int, localMidnight: int)
    requires row.status == Pending
    ensures var x := Incident(id, row.category, row.description, occurredMs, row.lat, row.lon,
                              row.precisionM, row.regionText, row.status);
      !IncidentsApi.Matches(f, bbox, now, localMidnight, x)
  {
  }

  /** The wait shown when the cooldown refuses: `Math.ceil(retryAfterSec / 60)` minutes. */
  function WaitMinutes(retryAfterSec: int): (m: int)
    ensures 60 * (m - 1) < retryAfterSec <= 60 * m
  {
    Cooldown.CeilDiv(retryAfterSec, 60)
  }

  /** A refusal always asks for at least a minute, and at most the window's thirty when no timestamp lies ahead. */
  lemma WaitMinutesBounds(ts: seq<int>, now: int)
    requires Cooldown.CanSubmit(Cooldown.Timestamps(ts), now).Refused?
    ensures WaitMinutes(Cooldown.CanSubmit(Cooldown.Timestamps(ts), now).retryAfterSec) >= 1
    ensures (forall t :: t in ts ==> t <= now) ==>
      WaitMinutes(Cooldown.CanSubmit(Cooldown.Timestamps(ts), now).retryAfterSec) <= 30
  {
    if forall t :: t in ts ==> t <= now {
      Cooldown.RetryAtMostWindow(ts, now);
    }
  }

  class Screen {
    const store: ReportStore.Store
    const slot: Cooldown.HistorySlot
    var submitting: bool

    constructor (s: ReportStore.Store, h: Cooldown.HistorySlot)
      ensures store == s && slot == h && !submitting
    {
      store := s;
      slot := h;
      submitting := false;
    }

    /**
     * onSubmit. An incomplete draft stops before anything else; a refusal
     * of the cooldown stops before the insert; a failed insert leaves the
     * draft and the cooldown history as they were; a successful one is
     * recorded and then the draft is reset, dropping its media. Past the
     * cooldown check the `submitting` flag ends up off again.
     */
    method OnSubmit(checkedAt: int, recordedAt: int, round: (real, real, int) -> Coord,
                    insertResult: InsertResult, writeSucceeds: bool)
      returns (outcome: SubmitOutcome, effects: seq<Effect>)
      modifies this, store, slot
      ensures !Complete(old(store.Draft())) ==>
        && outcome == Incomplete && effects == []
        && store.Draft() == old(store.Draft()) && slot.stored == old(slot.stored) && submitting == old(submitting)
      ensures Complete(old(store.Draft())) && Cooldown.CanSubmit(old(slot.stored), checkedAt).Refused? ==>
        && outcome == RateLimited(WaitMinutes(Cooldown.CanSubmit(old(slot.stored), checkedAt).retryAfterSec))
        && effects == [CheckCooldown]
        && store.Draft() == old(store.Draft()) && slot.stored == old(slot.stored) && submitting == old(submitting)
      ensures Complete(old(store.Draft())) && Cooldown.CanSubmit(old(slot.stored), checkedAt) == Cooldown.Allowed ==>
        && !submitting
        && |effects| >= 2 && effects[..2] == [CheckCooldown, Insert(InsertRow(old(store.Draft()), round))]
      ensures Complete(old(store.Draft())) && Cooldown.CanSubmit(old(slot.stored), checkedAt) == Cooldown.Allowed
              && insertResult.InsertError? ==>
        && outcome == InsertFailed(insertResult.message) && |effects| == 2
        && store.Draft() == old(store.Draft()) && slot.stored == old(slot.stored)
      ensures Complete(old(store.Draft())) && Cooldown.CanSubmit(old(slot.stored), checkedAt) == Cooldown.Allowed
              && insertResult.Inserted? ==>
        && outcome == Submitted(if insertResult.id.Some? then insertResult.id.value else "")
        && effects[2..] == [RecordSubmission, ResetDraft]
        && slot.stored == Cooldown.AfterRecord(old(slot.stored), recordedAt, writeSucceeds)
        && store.Draft() == ReportStore.Initial
    {
      var draft := store.Draft();
      effects := [];
      if !Complete(draft) {
        return Incomplete, effects;
      }
      var decision := Cooldown.CanSubmit(slot.stored, checkedAt);
      effects := effects + [CheckCooldown];
      if decision.Refused? {
        return RateLimited(WaitMinutes(decision.retryAfterSec)), effects;
      }
      submitting := true;
      var row := InsertRow(draft, round);
      effects := effects + [Insert(row)];
      if insertResult.InsertError? {
        submitting := false;
        return InsertFailed(insertResult.message), effects;
      }
      slot.RecordSubmission(recordedAt, writeSucceeds);
      effects := effects + [RecordSubmission];
      store.Reset();
      effects := effects + [ResetDraft];
      submitting := false;
      outcome := Submitted(if insertResult.id.Some? then insertResult.id.value else "");
    }
  }
}
