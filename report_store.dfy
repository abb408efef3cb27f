/**
 * The draft a report is assembled in across the wizard steps
 * (store/report-store.ts). The store is one mutable object; each setter
 * overwrites its own fields, the media list is appended to and filtered
 * by index, and `Reset` restores the initial draft.
 */
module ReportStore {
  import opened Types

  /** The draft's fields, as one value (types/index.ts `ReportDraft`). */
  datatype ReportDraft = ReportDraft(
    category: Option<Category>,
    lat: Option<real>,
    lon: Option<real>,
    precisionM: Option<int>,
    occurredAt: Option<string>,
    description: string,
    mediaUris: seq<MediaAttachment>)

  /** The draft a fresh or reset store holds: nothing chosen, empty text, no media. */
  const Initial: ReportDraft := ReportDraft(None, None, None, None, None, "", [])

  /**
   * `filter((_, i) => i !== index)`: every entry except the one at
   * position `index`. An index outside the list (negative, too large)
   * matches no position, so the list comes back whole.
   */
  function WithoutIndex<T>(s: seq<T>, index: int): (r: seq<T>)
    ensures 0 <= index < |s| ==> r == s[..index] + s[index + 1..]
    ensures !(0 <= index < |s|) ==> r == s
  {
    if s == [] then []
    else (if index == 0 then [] else [s[0]]) + WithoutIndex(s[1..], index - 1)
  }

  class Store {
    var category: Option<Category>
    var lat: Option<real>
    var lon: Option<real>
    var precisionM: Option<int>
    var occurredAt: Option<string>
    var description: string
    var mediaUris: seq<MediaAttachment>

    /** The store's state as a draft value. */
    function Draft(): ReportDraft
      reads this
    {
      ReportDraft(category, lat, lon, precisionM, occurredAt, description, mediaUris)
    }

    constructor ()
      ensures Draft() == Initial
    {
      category, lat, lon, precisionM := None, None, None, None;
      occurredAt, description, mediaUris := None, "", [];
    }

    method SetCategory(c: Category)
      modifies this
      ensures Draft() == old(Draft()).(category := Some(c))
    {
      category := Some(c);
    }

    /** Sets the three location fields together; nothing else changes. */
    method SetLocation(newLat: real, newLon: real, newPrecisionM: int)
      modifies this
      ensures Draft() == old(Draft()).(lat := Some(newLat), lon := Some(newLon), precisionM := Some(newPrecisionM))
    {
      lat, lon, precisionM := Some(newLat), Some(newLon), Some(newPrecisionM);
    }

    method SetOccurredAt(iso: string)
      modifies this
      ensures Draft() == old(Draft()).(occurredAt := Some(iso))
    {
      occurredAt := Some(iso);
    }

    method SetDescription(d: string)
      modifies this
      ensures Draft() == old(Draft()).(description := d)
    {
      description := d;
    }

    /** Appends one attachment at the end; the earlier ones stay as they were. */
    method AddMedia(uri: string, kind: MediaKind)
      modifies this
      ensures Draft() == old(Draft()).(mediaUris := old(mediaUris) + [MediaAttachment(uri, kind)])
      ensures |mediaUris| == |old(mediaUris)| + 1 && mediaUris[..|old(mediaUris)|] == old(mediaUris)
    {
      mediaUris := mediaUris + [MediaAttachment(uri, kind)];
    }

    /** Removes the attachment at `index`; an index outside the list removes nothing. */
    method RemoveMedia(index: int)
      modifies this
      ensures Draft() == old(Draft()).(mediaUris := WithoutIndex(old(mediaUris), index))
      ensures 0 <= index < |old(mediaUris)| ==> |mediaUris| == |old(mediaUris)| - 1
      ensures !(0 <= index < |old(mediaUris)|) ==> mediaUris == old(mediaUris)
    {
      mediaUris := WithoutIndex(mediaUris, index);
    }

    /** Restores the initial draft from any state (and so is idempotent). */
    method Reset()
      modifies this
      ensures Draft() == Initial
    {
      category, lat, lon, precisionM := None, None, None, None;
      occurredAt, description, mediaUris := None, "", [];
    }
  }
}
