/**
 * The records shared by the reporting flow, the public read path and the
 * moderation screen: incident categories and statuses, media rows, and
 * the small Option/Result wrappers used for the source's `null` and
 * thrown errors.
 */
module Types {

  datatype Option<+T> = None | Some(value: T)

  /** A value or the error the source would throw or return. */
  datatype Result<+T> = Ok(value: T) | Err(message: string)

  datatype Category = Propaganda | Threat | Violence | Online | Event | Other

  datatype Status = Pending | Approved | Rejected

  datatype MediaKind = Image | Video

  /** The time-range filter of the home screens and of the public query. */
  datatype TimeRange = Today | SevenDays | ThirtyDays

  /** A point as the map and the store hold it (JavaScript numbers). */
  datatype Coord = Coord(lat: real, lon: real)

  /** One attachment of a draft: a local file reference and its kind. */
  datatype MediaAttachment = MediaAttachment(uri: string, kind: MediaKind)

  /**
   * A persisted incident row. `occurredAt` is the row's timestamp in
   * milliseconds since the epoch, the form in which the datastore
   * compares it.
   */
  datatype Incident = Incident(
    id: string,
    category: Category,
    description: string,
    occurredAt: int,
    lat: real,
    lon: real,
    precisionM: int,
    regionText: Option<string>,
    status: Status)

  /** A persisted media row, linked to its incident by `incidentId`. */
  datatype MediaRow = MediaRow(id: string, incidentId: string, kind: MediaKind, url: string)
}
