/**
 * The moderation screen (app/admin.tsx): a code gate, the list of pending
 * incidents with their media grouped by incident, signed thumbnail URLs,
 * and the approve/reject actions.
 *
 * The two procedures the screen calls and the URL signer are parameters:
 * a procedure's answer is an `RpcResponse`, the signer a function from a
 * storage path to a URL or nothing.
 */
module Admin {
  import opened Types
  import opened Text
  import opened Datastore

  /** A procedure call's answer: an error, or data that is an array (`Some`) or anything else (`None`). */
  datatype RpcResponse<T> = RpcError(message: string) | RpcData(data: Option<seq<T>>)

  /** `Array.isArray(x) ? x : []`; an error carries no data either. */
  function AsList<T>(r: RpcResponse<T>): (l: seq<T>)
    ensures r.RpcError? || r.data.None? ==> l == []
    ensures r.RpcData? && r.data.Some? ==> l == r.data.value
  {
    if r.RpcData? && r.data.Some? then r.data.value else []
  }

  /**
   * The grouping `loadPending` builds, row by row: each row is appended
   * to its incident's group, which is created empty the first time the
   * id is seen.
   */
  function Grouped(rows: seq<MediaRow>): map<string, seq<MediaRow>> {
    if rows == [] then map[]
    else
      var g := Grouped(rows[..|rows| - 1]);
      var m := rows[|rows| - 1];
      g[m.incidentId := (if m.incidentId in g then g[m.incidentId] else []) + [m]]
  }

  lemma {:induction false} MediaOfAppend(rows: seq<MediaRow>, m: MediaRow, k: string)
    ensures MediaOf(rows + [m], k) == MediaOf(rows, k) + (if m.incidentId == k then [m] else [])
  {
    if rows == [] {
      assert rows + [m] == [m];
    } else {
      assert (rows + [m])[1..] == rows[1..] + [m];
      MediaOfAppend(rows[1..], m, k);
    }
  }

  /**
   * Each row is in its own incident's group once per occurrence in the
   * input, and in no other group.
   */
  lemma {:induction false} MediaOfCounts(rows: seq<MediaRow>, k: string, m: MediaRow)
    ensures multiset(MediaOf(rows, k))[m] == if m.incidentId == k then multiset(rows)[m] else 0
  {
    if rows != [] {
      MediaOfCounts(rows[1..], k, m);
      assert rows == [rows[0]] + rows[1..];
    }
  }

  /**
   * The grouping holds a group for exactly the ids that occur, and each
   * group is that id's rows in their order.
   */
  lemma {:induction false} GroupedAt(rows: seq<MediaRow>, k: string)
    ensures k in Grouped(rows) <==> MediaOf(rows, k) != []
    ensures k in Grouped(rows) ==> Grouped(rows)[k] == MediaOf(rows, k)
  {
    if rows != [] {
      var p, m := rows[..|rows| - 1], rows[|rows| - 1];
      assert rows == p + [m];
      GroupedAt(p, k);
      MediaOfAppend(p, m, k);
    }
  }

  /** The grouping loop of `loadPending`. */
  method GroupByIncident(rows: seq<MediaRow>) returns (byId: map<string, seq<MediaRow>>)
    ensures byId == Grouped(rows)
    ensures forall k :: k in byId <==> MediaOf(rows, k) != []
    ensures forall k | k in byId :: byId[k] == MediaOf(rows, k)
  {
    byId := map[];
    var i := 0;
    while i < |rows|
      invariant 0 <= i <= |rows|
      invariant byId == Grouped(rows[..i])
    {
      var m := rows[i];
      assert rows[..i + 1][..i] == rows[..i];
      if m.incidentId !in byId {
        byId := byId[m.incidentId := []];
      }
      byId := byId[m.incidentId := byId[m.incidentId] + [m]];
      i := i + 1;
    }
    assert rows[..i] == rows;
    forall k
      ensures (k in byId <==> MediaOf(rows, k) != []) && (k in byId ==> byId[k] == MediaOf(rows, k))
    {
      GroupedAt(rows, k);
    }
  }

  /** The rows of type image, in order. */
  function ImageRows(rows: seq<MediaRow>): (r: seq<MediaRow>)
    ensures forall m :: m in r <==> m in rows && m.kind == Image
  {
    if rows == [] then []
    else (if rows[0].kind == Image then [rows[0]] else []) + ImageRows(rows[1..])
  }

  /** The storage paths to sign: the urls of the image rows, in order. */
  function ImagePaths(rows: seq<MediaRow>): (paths: seq<string>)
    ensures |paths| == |ImageRows(rows)|
    ensures forall k | 0 <= k < |paths| :: paths[k] == ImageRows(rows)[k].url
  {
    var images := ImageRows(rows);
    seq(|images|, k requires 0 <= k < |images| => images[k].url)
  }

  /** A video row contributes no path; any image row's url is a path. */
  lemma ImagePathsAreImageUrls(rows: seq<MediaRow>, m: MediaRow)
    requires m in rows
    ensures m.kind == Image ==> m.url in ImagePaths(rows)
  {
    if m.kind == Image {
      var images := ImageRows(rows);
      var k :| 0 <= k < |images| && images[k] == m;
      assert ImagePaths(rows)[k] == m.url;
    }
  }

  /** Video rows can be dropped or added without changing the paths. */
  lemma {:induction false} ImagePathsIgnoreVideos(rows: seq<MediaRow>, v: MediaRow)
    requires v.kind == Video
    ensures ImagePaths(rows + [v]) == ImagePaths(rows)
  {
    ImageRowsAppendVideo(rows, v);
  }

  lemma {:induction false} ImageRowsAppendVideo(rows: seq<MediaRow>, v: MediaRow)
    requires v.kind == Video
    ensures ImageRows(rows + [v]) == ImageRows(rows)
  {
    if rows == [] {
      assert rows + [v] == [v];
    } else {
      assert (rows + [v])[1..] == rows[1..] + [v];
      ImageRowsAppendVideo(rows[1..], v);
    }
  }

  /** `if (url)`: a signing result is kept when it is a non-empty string. */
  predicate Signed(u: Option<string>) {
    u.Some? && u.value != ""
  }

  /** The URL map of one load: each path whose signing succeeded, mapped to its URL. */
  function SignedUrls(paths: seq<string>, sign: string -> Option<string>): map<string, string> {
    map p | p in paths && Signed(sign(p)) :: sign(p).value
  }

  /**
   * Fills the URL map one path at a time. The source awaits the signings
   * concurrently; as every path gets the same URL whichever order they
   * finish in, a sequential loop yields the same map.
   */
  method SignAll(paths: seq<string>, sign: string -> Option<string>) returns (urlMap: map<string, string>)
    ensures urlMap == SignedUrls(paths, sign)
  {
    urlMap := map[];
    var i := 0;
    while i < |paths|
      invariant 0 <= i <= |paths|
      invariant urlMap == SignedUrls(paths[..i], sign)
    {
      var path := paths[i];
      var url := sign(path);
      assert paths[..i + 1] == paths[..i] + [path];
      if Signed(url) {
        urlMap := urlMap[path := url.value];
      }
      i := i + 1;
    }
    assert paths[..i] == paths;
  }

  /** `media.find((m) => m.type === 'image')`: the first image row, if there is one. */
  function FirstImage(media: seq<MediaRow>): (r: Option<MediaRow>)
    ensures r.None? <==> ImageRows(media) == []
    ensures r.Some? ==> r.value == ImageRows(media)[0] && r.value in media && r.value.kind == Image
  {
    if media == [] then None
    else if media[0].kind == Image then Some(media[0])
    else FirstImage(media[1..])
  }

  /** What a pending card shows above its text. */
  datatype Thumb = Picture(url: string) | Placeholder | NoThumb

  /**
   * The card's thumbnail: the signed URL of its first image when one is
   * known and non-empty, otherwise a placeholder if the incident has any
   * media, otherwise nothing.
   */
  function CardThumb(id: string, mediaByIncidentId: map<string, seq<MediaRow>>, mediaUrls: map<string, string>)
    : (t: Thumb)
    ensures
      var media := if id in mediaByIncidentId then mediaByIncidentId[id] else [];
      var first := FirstImage(media);
      && (t.Picture? <==> first.Some? && first.value.url in mediaUrls && mediaUrls[first.value.url] != "")
      && (t.Picture? ==> t.url == mediaUrls[first.value.url])
      && (t == NoThumb <==> media == [])
  {
    var media := if id in mediaByIncidentId then mediaByIncidentId[id] else [];
    var first := FirstImage(media);
    if first.Some? && first.value.url in mediaUrls && mediaUrls[first.value.url] != "" then
      Picture(mediaUrls[first.value.url])
    else if |media| > 0 then Placeholder
    else NoThumb
  }

  /** The screen's state as one value. */
  datatype Screen = Screen(
    code: string,
    unlocked: bool,
    pending: seq<Incident>,
    mediaByIncidentId: map<string, seq<MediaRow>>,
    mediaUrls: map<string, string>,
    loading: bool)

  /**
   * The state after one `loadPending`, from state `s`, for the answers of
   * the two procedures and the signer. The loading flag ends up off on
   * every path.
   */
  function Loaded(s: Screen, incidents: RpcResponse<Incident>, media: RpcResponse<MediaRow>, sign: string -> Option<string>)
    : Screen
  {
    if incidents.RpcError? then s.(loading := false)
    else
      var list := AsList(incidents);
      if list == [] then s.(loading := false, pending := [], mediaByIncidentId := map[])
      else
        var mediaList := AsList(media);
        s.(loading := false, pending := list, mediaByIncidentId := Grouped(mediaList),
           mediaUrls := s.mediaUrls + SignedUrls(ImagePaths(mediaList), sign))
  }

  /** A failing pending query leaves list, media and URLs as they were. */
  lemma LoadErrorKeepsLists(s: Screen, message: string, media: RpcResponse<MediaRow>, sign: string -> Option<string>)
    ensures Loaded(s, RpcError(message), media, sign) == s.(loading := false)
  {
  }

  /** An answer that is not an array lists nothing and clears the media, keeping the URLs. */
  lemma NonArrayIsEmpty(s: Screen, media: RpcResponse<MediaRow>, sign: string -> Option<string>)
    ensures
      var t := Loaded(s, RpcData(None), media, sign);
      t.pending == [] && t.mediaByIncidentId == map[] && t.mediaUrls == s.mediaUrls
  {
  }

  /**
   * With a non-empty pending list every media row lands in its incident's
   * group, in order; a failed media query groups nothing instead of
   * failing the load.
   */
  lemma LoadGroupsMedia(s: Screen, list: seq<Incident>, media: RpcResponse<MediaRow>, sign: string -> Option<string>, m: MediaRow)
    requires list != [] && m in AsList(media)
    ensures
      var t := Loaded(s, RpcData(Some(list)), media, sign);
      && t.pending == list
      && m.incidentId in t.mediaByIncidentId
      && m in t.mediaByIncidentId[m.incidentId]
      && forall k | k in t.mediaByIncidentId :: forall r | r in t.mediaByIncidentId[k] :: r.incidentId == k
  {
    var rows := AsList(media);
    GroupedAt(rows, m.incidentId);
    forall k | k in Grouped(rows)
      ensures forall r | r in Grouped(rows)[k] :: r.incidentId == k
    {
      GroupedAt(rows, k);
    }
  }

  /** A failed media query leaves no group and adds no URL. */
  lemma MediaErrorIsIgnored(s: Screen, list: seq<Incident>, message: string, sign: string -> Option<string>)
    requires list != []
    ensures
      var t := Loaded(s, RpcData(Some(list)), RpcError(message), sign);
      t.pending == list && t.mediaByIncidentId == map[] && t.mediaUrls == s.mediaUrls
  {
    assert SignedUrls([], sign) == map[];
  }

  /**
   * The URL map only grows: earlier entries stay unless a path was signed
   * again, which then carries the fresh URL. Failed signings add nothing.
   */
  lemma UrlMergeKeepsAndOverrides(s: Screen, list: seq<Incident>, media: RpcResponse<MediaRow>, sign: string -> Option<string>, p: string)
    requires list != []
    ensures
      var t := Loaded(s, RpcData(Some(list)), media, sign);
      var paths := ImagePaths(AsList(media));
      && (p in s.mediaUrls ==> p in t.mediaUrls)
      && (p in paths && Signed(sign(p)) ==> p in t.mediaUrls && t.mediaUrls[p] == sign(p).value)
      && (!(p in paths && Signed(sign(p))) ==> (p in t.mediaUrls <==> p in s.mediaUrls))
      && (!(p in paths && Signed(sign(p))) && p in s.mediaUrls ==> t.mediaUrls[p] == s.mediaUrls[p])
  {
  }

  /** The status a moderation action asks the server procedure to set. */
  datatype StatusUpdate = StatusUpdate(id: string, status: Status)

  class AdminScreen {
    var code: string
    var unlocked: bool
    var pending: seq<Incident>
    var mediaByIncidentId: map<string, seq<MediaRow>>
    var mediaUrls: map<string, string>
    var loading: bool

    function Snapshot(): Screen
      reads this
    {
      Screen(code, unlocked, pending, mediaByIncidentId, mediaUrls, loading)
    }

    /** Locked, nothing typed, nothing loaded. */
    constructor ()
      ensures Snapshot() == Screen("", false, [], map[], map[], false)
    {
      code, unlocked, pending := "", false, [];
      mediaByIncidentId, mediaUrls, loading := map[], map[], false;
    }

    /** The code field's `onChangeText`. */
    method SetCode(c: string)
      modifies this
      ensures Snapshot() == old(Snapshot()).(code := c)
    {
      code := c;
    }

    /**
     * tryUnlock: the screen unlocks iff the trimmed entered code equals
     * `adminCode` exactly; otherwise an alert is shown and nothing changes.
     * Once unlocked it stays unlocked.
     */
    method TryUnlock(adminCode: string) returns (alerted: bool)
      modifies this
      ensures alerted <==> Trim(code) != adminCode
      ensures Snapshot() == old(Snapshot()).(unlocked := old(unlocked) || Trim(code) == adminCode)
    {
      var entered := Trim(code);
      if entered == adminCode {
        unlocked := true;
        alerted := false;
      } else {
        alerted := true;
      }
    }

    /**
     * loadPending. `alert` is the message shown when the pending query
     * fails. The media query is made only for a non-empty list.
     */
    method LoadPending(incidents: RpcResponse<Incident>, media: RpcResponse<MediaRow>, sign: string -> Option<string>)
      returns (alert: Option<string>, mediaQueried: bool)
      modifies this
      ensures Snapshot() == Loaded(old(Snapshot()), incidents, media, sign)
      ensures incidents.RpcError? <==> alert.Some?
      ensures incidents.RpcError? ==> alert.value == incidents.message
      ensures mediaQueried <==> incidents.RpcData? && AsList(incidents) != []
    {
      // The indicator is on only while the reads are awaited; that
      // intermediate state is not modelled, only where it ends up.
      loading := false;
      if incidents.RpcError? {
        return Some(incidents.message), false;
      }
      var list := AsList(incidents);
      pending := list;
      if |list| == 0 {
        mediaByIncidentId := map[];
        return None, false;
      }
      var mediaList := AsList(media);
      var byId := GroupByIncident(mediaList);
      mediaByIncidentId := byId;
      var paths := ImagePaths(mediaList);
      var urlMap := SignAll(paths, sign);
      mediaUrls := mediaUrls + urlMap;
      return None, true;
    }

    /**
     * approve and reject: send the target status for `id`; on an error
     * show it and change nothing, otherwise reload the pending list.
     */
    method Moderate(id: string, approve: bool, updateError: Option<string>,
                    incidents: RpcResponse<Incident>, media: RpcResponse<MediaRow>, sign: string -> Option<string>)
      returns (sent: StatusUpdate, alert: Option<string>, reloaded: bool)
      modifies this
      ensures sent == StatusUpdate(id, if approve then Approved else Rejected)
      ensures updateError.Some? ==> alert == updateError && !reloaded && Snapshot() == old(Snapshot())
      ensures updateError.None? ==> reloaded && Snapshot() == Loaded(old(Snapshot()), incidents, media, sign)
    {
      sent := StatusUpdate(id, if approve then Approved else Rejected);
      if updateError.Some? {
        return sent, updateError, false;
      }
      var mediaQueried;
      alert, mediaQueried := LoadPending(incidents, media, sign);
      reloaded := true;
    }
  }
}
