/**
 * Media upload helpers (lib/upload-media.ts): a random version-4 UUID as
 * the file name, the byte copy of a decoded base64 string, the storage
 * path and content type, and the upload-then-insert sequence.
 *
 * The random hex digits are a parameter (`nibbles`); reading and
 * base64-decoding the local file is a parameter `decoded`; the storage
 * upload and the metadata insert are recorded as calls and their errors
 * are parameters.
 */
module UploadMedia {
  import opened Types

  type Nibble = n: int | 0 <= n < 16

  /** An element of a `Uint8Array`. */
  type Byte = b: int | 0 <= b < 256

  const HexDigits: string := "0123456789abcdef"

  /** `v.toString(16)` for a single hex digit: lowercase. */
  function Hex(n: Nibble): (c: char)
    ensures c in HexDigits
  {
    HexDigits[n]
  }

  /** The RFC 4122 variant nibble: `(r & 0x3) | 0x8`, i.e. binary `10xx`. */
  function Variant(r: Nibble): (v: Nibble)
    ensures 8 <= v <= 11 && v % 4 == r % 4
  {
    ((r as bv4 & 3) | 8) as int
  }

  /**
   * The template of version-4 UUIDs (section 4.4 of RFC 4122),
   * `xxxxxxxx-xxxx-4xxx-yxxx-xxxxxxxxxxxx`, character by character.
   */
  function TemplateChar(j: int): char {
    if j == 8 || j == 13 || j == 18 || j == 23 then '-'
    else if j == 14 then '4'
    else if j == 19 then 'y'
    else 'x'
  }

  function Template(): (t: string)
    ensures |t| == 36 && forall j | 0 <= j < 36 :: t[j] == TemplateChar(j)
  {
    seq(36, j => TemplateChar(j))
  }

  lemma TemplateText()
    ensures Template() == "xxxxxxxx-xxxx-4xxx-yxxx-xxxxxxxxxxxx"
  {
  }

  predicate IsSlot(c: char) {
    c == 'x' || c == 'y'
  }

  /** The number of placeholders (`/[xy]/g` matches) in a template. */
  function Slots(t: string): nat {
    if t == [] then 0 else (if IsSlot(t[0]) then 1 else 0) + Slots(t[1..])
  }

  /** The replacement for one placeholder, given its random nibble. */
  function SlotDigit(c: char, r: Nibble): char {
    if c == 'x' then Hex(r) else Hex(Variant(r))
  }

  /**
   * `template.replace(/[xy]/g, ...)`: each placeholder takes the next
   * nibble, in order; every other character is kept.
   */
  function Fill(t: string, nibbles: seq<Nibble>): (r: string)
    requires |nibbles| == Slots(t)
    ensures |r| == |t|
    ensures forall j | 0 <= j < |t| && !IsSlot(t[j]) :: r[j] == t[j]
    ensures forall j | 0 <= j < |t| && IsSlot(t[j]) ::
      Slots(t[..j]) < |nibbles| && r[j] == SlotDigit(t[j], nibbles[Slots(t[..j])])
  {
    if t == [] then ""
    else
      var used := if IsSlot(t[0]) then 1 else 0;
      var head := if IsSlot(t[0]) then SlotDigit(t[0], nibbles[0]) else t[0];
      var rest := Fill(t[1..], nibbles[used..]);
      assert forall j | 1 <= j <= |t| :: t[..j] == [t[0]] + t[1..][..j - 1];
      [head] + rest
  }

  lemma {:induction false} SlotsAppendOne(t: string, c: char)
    ensures Slots(t + [c]) == Slots(t) + if IsSlot(c) then 1 else 0
  {
    if t == [] {
      assert t + [c] == [c];
    } else {
      assert (t + [c])[1..] == t[1..] + [c];
      SlotsAppendOne(t[1..], c);
    }
  }

  /** The number of template characters before position `j` that are not placeholders. */
  function FixedBefore(j: int): int {
    (if j > 8 then 1 else 0) + (if j > 13 then 1 else 0) + (if j > 14 then 1 else 0)
      + (if j > 18 then 1 else 0) + (if j > 23 then 1 else 0)
  }

  /** The placeholder before position `j` of the template are all but the fixed characters. */
  lemma {:induction false} TemplatePrefixSlots(j: int)
    requires 0 <= j <= 36
    ensures Slots(Template()[..j]) == j - FixedBefore(j)
  {
    if j > 0 {
      TemplatePrefixSlots(j - 1);
      assert Template()[..j] == Template()[..j - 1] + [Template()[j - 1]];
      SlotsAppendOne(Template()[..j - 1], Template()[j - 1]);
    }
  }

  lemma TemplateSlots()
    ensures Slots(Template()) == 31
  {
    TemplatePrefixSlots(36);
    assert Template()[..36] == Template();
  }

  /** randomId, on the 31 nibbles `Math.random` would have produced. */
  function RandomId(nibbles: seq<Nibble>): (id: string)
    requires |nibbles| == 31
    ensures |id| == 36
  {
    TemplateSlots();
    Fill(Template(), nibbles)
  }

  /**
   * The textual layout of a version-4 UUID: 36 characters, dashes at 8,
   * 13, 18 and 23, the version digit `4` at 14, the variant digit at 19
   * one of `8`, `9`, `a`, `b`, and lowercase hex digits everywhere else.
   */
  lemma RandomIdLayout(nibbles: seq<Nibble>)
    requires |nibbles| == 31
    ensures var id := RandomId(nibbles);
      && |id| == 36
      && id[8] == '-' && id[13] == '-' && id[18] == '-' && id[23] == '-'
      && id[14] == '4'
      && id[19] in "89ab"
      && forall j | 0 <= j < 36 && j != 8 && j != 13 && j != 18 && j != 23 && j != 14 :: id[j] in HexDigits
  {
    RandomIdAt(nibbles, 8);
    RandomIdAt(nibbles, 13);
    RandomIdAt(nibbles, 14);
    RandomIdAt(nibbles, 18);
    RandomIdAt(nibbles, 19);
    RandomIdAt(nibbles, 23);
    forall j | 0 <= j < 36 && j != 8 && j != 13 && j != 18 && j != 23 && j != 14
      ensures RandomId(nibbles)[j] in HexDigits
    {
      RandomIdAt(nibbles, j);
    }
  }

  /** One position of a random id: fixed characters are kept, placeholders turn into their digits. */
  lemma RandomIdAt(nibbles: seq<Nibble>, j: int)
    requires |nibbles| == 31 && 0 <= j < 36
    ensures
      var c := TemplateChar(j);
      var d := RandomId(nibbles)[j];
      && (c == '-' || c == '4' ==> d == c)
      && (c == 'x' ==> d in HexDigits)
      && (c == 'y' ==> d in "89ab")
  {
    TemplateSlots();
    if TemplateChar(j) == 'y' {
      TemplatePrefixSlots(19);
      var v := Variant(nibbles[15]);
      assert RandomId(nibbles)[j] == HexDigits[v];
      assert HexDigits[8] == '8' && HexDigits[9] == '9' && HexDigits[10] == 'a' && HexDigits[11] == 'b';
    }
  }

  /** Distinct nibbles give distinct ids: every nibble can be read back from its position. */
  lemma RandomIdInjective(a: seq<Nibble>, b: seq<Nibble>)
    requires |a| == 31 && |b| == 31 && RandomId(a) == RandomId(b)
    ensures forall k | 0 <= k < 31 && k != 15 :: a[k] == b[k]
    ensures Variant(a[15]) == Variant(b[15])
  {
    TemplateSlots();
    forall k | 0 <= k < 31
      ensures k != 15 ==> a[k] == b[k]
      ensures k == 15 ==> Variant(a[15]) == Variant(b[15])
    {
      var j := SlotPosition(Template(), k);
      assert RandomId(a)[j] == RandomId(b)[j];
      HexInjective(a, b, j, k);
    }
  }

  lemma HexInjective(a: seq<Nibble>, b: seq<Nibble>, j: int, k: int)
    requires |a| == 31 && |b| == 31
    requires 0 <= j < 36 && IsSlot(Template()[j]) && Slots(Template()[..j]) == k && 0 <= k < 31
    requires SlotDigit(Template()[j], a[k]) == SlotDigit(Template()[j], b[k])
    ensures k != 15 ==> a[k] == b[k]
    ensures k == 15 ==> Variant(a[15]) == Variant(b[15])
  {
    TemplatePrefixSlots(j);
    if Template()[j] == 'x' {
      assert HexDigits[a[k]] == HexDigits[b[k]];
    }
  }

  /** The position of the `k`-th placeholder of a template. */
  lemma {:induction false} SlotPosition(t: string, k: nat) returns (j: nat)
    requires k < Slots(t)
    ensures j < |t| && IsSlot(t[j]) && Slots(t[..j]) == k
  {
    if IsSlot(t[0]) && k == 0 {
      j := 0;
      assert t[..0] == [];
    } else {
      var used := if IsSlot(t[0]) then 1 else 0;
      var i := SlotPosition(t[1..], k - used);
      j := i + 1;
      assert t[..j] == [t[0]] + t[1..][..i];
    }
  }

  /** The storage file extension for a media kind. */
  function Extension(kind: MediaKind): (e: string)
    ensures |e| == 3
    ensures kind.Image? <==> e == "jpg"
    ensures kind.Video? <==> e == "mp4"
  {
    assert "jpg"[0] != "mp4"[0];
    if kind == Image then "jpg" else "mp4"
  }

  /** The content type sent with the upload, matching the extension. */
  function ContentType(kind: MediaKind): (t: string)
    ensures kind.Image? <==> t == "image/jpeg"
    ensures kind.Video? <==> t == "video/mp4"
  {
    assert "image/jpeg"[0] != "video/mp4"[0];
    if kind == Image then "image/jpeg" else "video/mp4"
  }

  function StoragePath(incidentId: string, id: string, kind: MediaKind): string {
    incidentId + "/" + id + "." + Extension(kind)
  }

  /** Reads a storage path back, assuming a 36-character id: the incident, the id, the extension. */
  function SplitPath(path: string): Option<(string, string, string)> {
    if |path| < 41 || path[|path| - 41] != '/' || path[|path| - 4] != '.' then None
    else Some((path[..|path| - 41], path[|path| - 40..|path| - 4], path[|path| - 3..]))
  }

  /**
   * A path built from a random id is read back into the incident id it
   * names, that id and the kind's extension: it lies in the incident's
   * folder and carries the kind.
   */
  lemma StoragePathRoundTrip(incidentId: string, nibbles: seq<Nibble>, kind: MediaKind)
    requires |nibbles| == 31
    ensures var id := RandomId(nibbles);
      SplitPath(StoragePath(incidentId, id, kind)) == Some((incidentId, id, Extension(kind)))
  {
    var id := RandomId(nibbles);
    var path := StoragePath(incidentId, id, kind);
    assert path == incidentId + ['/'] + id + ['.'] + Extension(kind);
    assert path[..|path| - 41] == incidentId;
    assert path[|path| - 40..|path| - 4] == id;
    assert path[|path| - 3..] == Extension(kind);
  }

  /** `new Uint8Array(n)` then `bytes[i] = charCodeAt(i)`: each code is truncated to 8 bits. */
  function Latin1Bytes(binary: string): (bytes: seq<Byte>)
    ensures |bytes| == |binary|
    ensures forall i | 0 <= i < |binary| :: bytes[i] == binary[i] as int % 256
  {
    seq(|binary|, i requires 0 <= i < |binary| => binary[i] as int % 256)
  }

  /**
   * base64ToUint8Array after `atob`: a byte array as long as the decoded
   * string, with byte `i` the code of character `i` modulo 256.
   */
  method BinaryToBytes(binary: string) returns (bytes: array<Byte>)
    ensures bytes.Length == |binary|
    ensures bytes[..] == Latin1Bytes(binary)
  {
    bytes := new Byte[|binary|];
    var i := 0;
    while i < |binary|
      invariant 0 <= i <= |binary|
      invariant forall k | 0 <= k < i :: bytes[k] == Latin1Bytes(binary)[k]
    {
      bytes[i] := binary[i] as int % 256;
      i := i + 1;
    }
  }

  /** The backend calls of one upload. */
  datatype Call =
    | Upload(path: string, body: seq<Byte>, contentType: string, upsert: bool)
    | InsertMedia(incidentId: string, kind: MediaKind, url: string)

  /**
   * uploadIncidentMedia. `decoded` is the decoded file content, or the
   * error reading or decoding it; `uploadError` and `insertError` are the
   * errors the two backend calls report. Every error is thrown, here
   * returned as `Err`, and stops the sequence.
   */
  method UploadIncidentMedia(incidentId: string, kind: MediaKind, nibbles: seq<Nibble>,
                             decoded: Result<string>, uploadError: Option<string>, insertError: Option<string>)
    returns (r: Result<()>, calls: seq<Call>)
    requires |nibbles| == 31
    ensures
      var path := StoragePath(incidentId, RandomId(nibbles), kind);
      && (decoded.Err? ==> r == Err(decoded.message) && calls == [])
      && (decoded.Ok? ==> |calls| >= 1 && calls[0] == Upload(path, Latin1Bytes(decoded.value), ContentType(kind), false))
      && (decoded.Ok? && uploadError.Some? ==> r == Err(uploadError.value) && |calls| == 1)
      && (decoded.Ok? && uploadError.None? ==>
            && calls == [calls[0], InsertMedia(incidentId, kind, path)]
            && r == if insertError.Some? then Err(insertError.value) else Ok(()))
    // A metadata row is only ever inserted right after an upload of the
    // same path, and that path names the incident's folder and the kind.
    ensures forall k | 0 <= k < |calls| && calls[k].InsertMedia? ::
      k >= 1 && calls[k - 1].Upload? && calls[k - 1].path == calls[k].url
    ensures forall k | 0 <= k < |calls| && calls[k].InsertMedia? ::
      SplitPath(calls[k].url) == Some((incidentId, RandomId(nibbles), Extension(kind)))
  {
    StoragePathRoundTrip(incidentId, nibbles, kind);
    var ext := Extension(kind);
    var path := incidentId + "/" + RandomId(nibbles) + "." + ext;
    calls := [];
    if decoded.Err? {
      return Err(decoded.message), calls;
    }
    var body := BinaryToBytes(decoded.value);
    calls := calls + [Upload(path, body[..], ContentType(kind), false)];
    if uploadError.Some? {
      return Err(uploadError.value), calls;
    }
    calls := calls + [InsertMedia(incidentId, kind, path)];
    if insertError.Some? {
      return Err(insertError.value), calls;
    }
    r := Ok(());
  }
}
