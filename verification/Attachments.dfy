/** Image attachments: their bytes in a blob store, their metadata in another store, and a service that
    keeps the two in step although either may fail at any call. A failed store call has no effect. */
module Attachments {
  import opened IsoTime
  import opened Models
  import opened Scanner

  /** `storage_path`: the scope's digest, the attachment's id and the extension of its format. */
  datatype Path = Path(workspaceId: string, tenantId: string, id: nat, extension: string)

  /** The digest is injective, so that the digested bytes stand for it. */
  type Digest = seq<Byte>

  datatype Record = Record(
    id: nat, workspaceId: string, tenantId: string, userId: string, filename: string, contentType: string, format: string,
    sizeBytes: nat, digest: Digest, width: int, height: int, path: Path, createdAt: string)

  /** `Storage` is `BlobStorageError`, `Other` any other exception. */
  datatype Fault = Fine | Storage | Other
  datatype Error = Invalid | NotFound | Detected | ScanUnavailable | Raised
  datatype Result<+T> = Ok(value: T) | Err(error: Error)

  /** What Pillow makes of the bytes, if anything. */
  datatype Image = Image(format: string, width: int, height: int)

  // ---------------------------------------------------------------- validation

  predicate SafeChar(c: char) {
    'A' <= c <= 'Z' || 'a' <= c <= 'z' || '0' <= c <= '9' || c == '.' || c == '_' || c == ':' || c == '-'
  }

  predicate SafeName(s: string) {
    1 <= |s| <= 256 && forall c <- s :: SafeChar(c)
  }

  /** `_validate_identity`. */
  predicate SafeIdentity(i: Identity) {
    SafeName(i.userId) && SafeName(i.workspaceId) && SafeName(i.tenantId)
  }

  /** A single path component without control characters. The component ".." passes. */
  predicate SafeFilename(s: string) {
    1 <= |s| <= 255 && s != "." && forall c <- s :: c >= ' ' && c != '\U{7F}' && c != '/' && c != '\\'
  }

  /** `ALLOWED_IMAGE_TYPES`. */
  function Allowed(format: string): Option<(string, string)> {
    if format == "JPEG" then Some(("image/jpeg", ".jpg"))
    else if format == "PNG" then Some(("image/png", ".png"))
    else if format == "WEBP" then Some(("image/webp", ".webp"))
    else if format == "GIF" then Some(("image/gif", ".gif"))
    else None
  }

  predicate Acceptable(maxBytes: int, maxPixels: int, identity: Identity, filename: string, contentType: string,
                       data: seq<Byte>, image: Option<Image>)
  {
    && SafeIdentity(identity) && SafeFilename(filename)
    && data != [] && |data| <= maxBytes
    && image.Some?
    && Allowed(image.value.format).Some? && Allowed(image.value.format).value.0 == contentType
    && 1 <= image.value.width && 1 <= image.value.height && image.value.width * image.value.height <= maxPixels
  }

  /** The record of an accepted upload. */
  function NewRecord(id: nat, i: Identity, filename: string, contentType: string, data: seq<Byte>, image: Image, now: Instant): Record
    requires Allowed(image.format).Some?
  {
    Record(id, i.workspaceId, i.tenantId, i.userId, filename, contentType, image.format, |data|, data, image.width, image.height,
           Path(i.workspaceId, i.tenantId, id, Allowed(image.format).value.1), Iso(now))
  }

  /** The record is of an upload by this user, in this workspace and tenant. */
  predicate OwnedBy(r: Record, i: Identity) {
    r.userId == i.userId && r.workspaceId == i.workspaceId && r.tenantId == i.tenantId
  }

  predicate InScope(r: Record, i: Identity) {
    r.workspaceId == i.workspaceId && r.tenantId == i.tenantId && r.userId == i.userId
  }

  // ---------------------------------------------------------------- retention cutoffs

  /** What `list_before` selects: in memory by parsed time, in SQLite by the text of the time. */
  predicate Before(textual: bool, r: Record, cutoff: Instant) {
    if textual then TextLess(r.createdAt, Iso(cutoff)) else ParseIso(r.createdAt).Some? && ParseIso(r.createdAt).value < cutoff
  }

  ghost predicate Dated(r: Record) {
    exists t: Instant :: r.createdAt == Iso(t)
  }

  predicate Expired(r: Record, cutoff: Instant) {
    Before(false, r, cutoff)
  }

  /** Both stores select the same records. */
  lemma ListingsAgree(r: Record, cutoff: Instant)
    requires Dated(r)
    ensures Before(true, r, cutoff) <==> Before(false, r, cutoff)
  {
    hide Iso, ParseIso, TextLess;
    var t: Instant :| r.createdAt == Iso(t);
    IsoRoundTrip(t);
    IsoOrder(t, cutoff);
  }

  // ---------------------------------------------------------------- what ties the two stores together

  /** The largest size and the largest number of pixels. */
  datatype Limits = Limits(bytes: int, pixels: int)

  const FORMATS := {("JPEG", "image/jpeg", ".jpg"), ("PNG", "image/png", ".png"), ("WEBP", "image/webp", ".webp"), ("GIF", "image/gif", ".gif")}

  /** The stores, and two sets that only failures fill: the paths of records whose content is gone because
      deleting their metadata failed, and those of blobs that a failed clean-up left without metadata. */
  datatype Shelf = Shelf(records: map<nat, Record>, blobs: map<Path, seq<Byte>>, torn: set<Path>, orphans: set<Path>, nextId: nat)

  /** A record's content is there, with the recorded size and digest. */
  predicate Whole(r: Record, blobs: map<Path, seq<Byte>>) {
    r.path in blobs && |blobs[r.path]| == r.sizeBytes && blobs[r.path] == r.digest
  }

  /** A path belongs to the record of its id. */
  predicate Owned(records: map<nat, Record>, p: Path) {
    p.id in records && records[p.id].path == p
  }

  /** A stored record is dated and respects the limits; its content type and its file's extension are those of
      an admitted format, and its file lies in its own scope. */
  ghost predicate RecordOk(r: Record, id: nat, nextId: nat, limits: Limits) {
    && r.id == id == r.path.id && id < nextId && Dated(r)
    && 1 <= r.sizeBytes <= limits.bytes && 1 <= r.width && 1 <= r.height && r.width * r.height <= limits.pixels
    && (r.format, r.contentType, r.path.extension) in FORMATS
    && r.path.workspaceId == r.workspaceId && r.path.tenantId == r.tenantId
  }

  ghost predicate Recorded(records: map<nat, Record>, nextId: nat, limits: Limits) {
    forall id <- records :: RecordOk(records[id], id, nextId, limits)
  }

  predicate Kept(records: map<nat, Record>, blobs: map<Path, seq<Byte>>, torn: set<Path>) {
    forall id <- records :: records[id].path in torn || Whole(records[id], blobs)
  }

  predicate Emptied(records: map<nat, Record>, blobs: map<Path, seq<Byte>>, torn: set<Path>) {
    forall p <- torn :: p !in blobs && Owned(records, p)
  }

  predicate Accounted(records: map<nat, Record>, blobs: map<Path, seq<Byte>>, orphans: set<Path>, nextId: nat) {
    forall p <- blobs :: p.id < nextId && (p in orphans || Owned(records, p))
  }

  predicate Unlisted(records: map<nat, Record>, orphans: set<Path>, nextId: nat) {
    forall p <- orphans :: p.id !in records && p.id < nextId
  }

  ghost predicate Consistent(s: Shelf, limits: Limits) {
    && Recorded(s.records, s.nextId, limits)
    && Kept(s.records, s.blobs, s.torn)
    && Emptied(s.records, s.blobs, s.torn)
    && Accounted(s.records, s.blobs, s.orphans, s.nextId)
    && Unlisted(s.records, s.orphans, s.nextId)
  }

  function Stored(s: Shelf, r: Record, data: seq<Byte>): Shelf {
    Shelf(s.records[r.id := r], s.blobs[r.path := data], s.torn, s.orphans, s.nextId + 1)
  }

  predicate WellNamed(s: string) {
    && 1 <= |s| <= 256
    && forall c <- s :: c in {'.', '_', ':', '-'} || 'A' <= c <= 'Z' || 'a' <= c <= 'z' || '0' <= c <= '9'
  }

  predicate WellIdentified(i: Identity) {
    WellNamed(i.userId) && WellNamed(i.workspaceId) && WellNamed(i.tenantId)
  }

  lemma SafeIdentityIff(i: Identity)
    ensures SafeIdentity(i) <==> WellIdentified(i)
  {
    SafeNameIff(i.userId);
    SafeNameIff(i.workspaceId);
    SafeNameIff(i.tenantId);
    hide SafeName, WellNamed;
  }

  lemma SafeNameIff(s: string)
    ensures SafeName(s) <==> WellNamed(s)
  {}

  /** What an upload must be: by a well-named identity, a file name that is one path component, content within
      the size limit, and an image of one of four formats, declared as what it is, within the pixel limit. */
  lemma AcceptableIff(maxBytes: int, maxPixels: int, identity: Identity, filename: string, contentType: string,
                      data: seq<Byte>, image: Option<Image>)
    ensures Acceptable(maxBytes, maxPixels, identity, filename, contentType, data, image) <==>
            && WellIdentified(identity)
            && 1 <= |filename| <= 255 && filename != "." && (forall c <- filename :: ' ' <= c && c !in {'\U{7F}', '/', '\\'})
            && 1 <= |data| <= maxBytes
            && image.Some? && 1 <= image.value.width && 1 <= image.value.height && image.value.width * image.value.height <= maxPixels
            && (image.value.format, contentType) in {("JPEG", "image/jpeg"), ("PNG", "image/png"), ("WEBP", "image/webp"), ("GIF", "image/gif")}
  {
    hide SafeIdentity, WellIdentified;
    SafeIdentityIff(identity);
  }

  lemma AcceptedImage(maxBytes: int, maxPixels: int, identity: Identity, filename: string, contentType: string,
                      data: seq<Byte>, image: Option<Image>)
    requires Acceptable(maxBytes, maxPixels, identity, filename, contentType, data, image)
    ensures image.Some? && Allowed(image.value.format).Some?
  {}

  lemma NewRecordOk(maxBytes: int, maxPixels: int, identity: Identity, filename: string, contentType: string, data: seq<Byte>, image: Option<Image>,
                    id: nat, now: Instant)
    requires Acceptable(maxBytes, maxPixels, identity, filename, contentType, data, image)
    ensures RecordOk(NewRecord(id, identity, filename, contentType, data, image.value, now), id, id + 1, Limits(maxBytes, maxPixels))
  {
    hide SafeIdentity, SafeFilename, Iso, Dated;
    DatedNow(NewRecord(id, identity, filename, contentType, data, image.value, now), now);
  }

  lemma StoredOk(s: Shelf, limits: Limits, r: Record, data: seq<Byte>)
    requires Consistent(s, limits) && RecordOk(r, s.nextId, s.nextId + 1, limits) && r.sizeBytes == |data| && r.digest == data
    ensures Consistent(Stored(s, r, data), limits)
  {
    hide Dated;
  }

  lemma OrphanOk(s: Shelf, limits: Limits, p: Path, data: seq<Byte>)
    requires Consistent(s, limits) && p.id == s.nextId
    ensures Consistent(Shelf(s.records, s.blobs[p := data], s.torn, s.orphans + {p}, s.nextId + 1), limits)
    ensures Consistent(Shelf(s.records, s.blobs, s.torn, s.orphans, s.nextId + 1), limits) && p !in s.blobs && s.nextId !in s.records
  {
    hide Dated;
  }

  /** What is left when a record and its content are gone. */
  function Without(s: Shelf, id: nat): Shelf
    requires id in s.records
  {
    var p := s.records[id].path;
    Shelf(s.records - {id}, s.blobs - {p}, s.torn - {p}, s.orphans, s.nextId)
  }

  /** What is left when only the content is gone. */
  function Torn(s: Shelf, id: nat): Shelf
    requires id in s.records
  {
    var p := s.records[id].path;
    Shelf(s.records, s.blobs - {p}, s.torn + {p}, s.orphans, s.nextId)
  }

  lemma WithoutOk(s: Shelf, limits: Limits, id: nat)
    requires Consistent(s, limits) && id in s.records
    ensures Consistent(Without(s, id), limits)
  {
    hide Dated;
  }

  lemma TornOk(s: Shelf, limits: Limits, id: nat)
    requires Consistent(s, limits) && id in s.records
    ensures Consistent(Torn(s, id), limits)
  {
    hide Dated;
  }

  function LeftRecords(s: Shelf, ids: set<nat>): map<nat, Record> {
    map id | id in s.records && id !in ids :: s.records[id]
  }

  function LeftBlobs(s: Shelf, ids: set<nat>): map<Path, seq<Byte>> {
    map p | p in s.blobs && !(p.id in ids && Owned(s.records, p)) :: s.blobs[p]
  }

  function LeftTorn(s: Shelf, ids: set<nat>): set<Path> {
    set p | p in s.torn && p.id !in ids
  }

  /** The shelf without the records of `ids` and their content. */
  function Purged(s: Shelf, ids: set<nat>): Shelf {
    Shelf(LeftRecords(s, ids), LeftBlobs(s, ids), LeftTorn(s, ids), s.orphans, s.nextId)
  }

  lemma PurgedOneMore(s: Shelf, ids: set<nat>, id: nat, limits: Limits)
    requires Consistent(s, limits) && id in s.records && id !in ids
    ensures id in Purged(s, ids).records && Without(Purged(s, ids), id) == Purged(s, ids + {id})
  {
    hide Dated, Kept, Accounted, Unlisted;
    var p := s.records[id].path;
    assert LeftRecords(s, ids) - {id} == LeftRecords(s, ids + {id});
    assert LeftBlobs(s, ids) - {p} == LeftBlobs(s, ids + {id});
    assert LeftTorn(s, ids) - {p} == LeftTorn(s, ids + {id});
  }

  // ---------------------------------------------------------------- the service

  class AttachmentService {
    const maxBytes: int
    const maxPixels: int
    const retentionSeconds: int
    /** Whether the metadata store compares times as text. */
    const textual: bool
    var records: map<nat, Record>
    var blobs: map<Path, seq<Byte>>
    /** Every id that was drawn is below it: a drawn id is new. */
    var nextId: nat
    ghost var torn: set<Path>
    ghost var orphans: set<Path>

    ghost function Shelves(): Shelf
      reads this
    {
      Shelf(records, blobs, torn, orphans, nextId)
    }

    ghost predicate Valid()
      reads this
    {
      Consistent(Shelves(), Limits(maxBytes, maxPixels))
    }

    constructor (maxBytes: int, maxPixels: int, retentionDays: int, textual: bool)
      ensures Valid() && Shelves() == Shelf(map[], map[], {}, {}, 0)
      ensures this.maxBytes == maxBytes && this.maxPixels == maxPixels && retentionSeconds == 86_400 * retentionDays && this.textual == textual
    {
      this.maxBytes, this.maxPixels, this.textual := maxBytes, maxPixels, textual;
      retentionSeconds := 86_400 * retentionDays;
      records, blobs, nextId := map[], map[], 0;
      torn, orphans := {}, {};
    }

    /** Null where the source's constructor raises. */
    static method Create(maxBytes: int, maxPixels: int, retentionDays: int, textual: bool) returns (r: AttachmentService?)
      ensures r == null <==> maxBytes < 1 || maxPixels < 1 || retentionDays < 0
      ensures r != null ==> fresh(r) && r.Valid() && r.records == map[] && r.blobs == map[] && r.retentionSeconds == 86_400 * retentionDays
    {
      if maxBytes < 1 || maxPixels < 1 || retentionDays < 0 {
        return null;
      }
      r := new AttachmentService(maxBytes, maxPixels, retentionDays, textual);
    }

    /** Stores both or, when anything fails, no metadata. A blob without metadata remains only where the
        metadata store failed after the bytes were put and deleting them again failed as well. */
    method Upload(identity: Identity, filename: string, contentType: string, data: seq<Byte>, image: Option<Image>,
                  verdict: Verdict, now: Instant, putFault: Fault, createFails: bool, cleanupFault: Fault)
      returns (r: Result<Record>)
      requires Valid()
      modifies this
      ensures Valid()
      ensures r.Ok? <==>
                Acceptable(maxBytes, maxPixels, identity, filename, contentType, data, image) && verdict.Clean? && putFault.Fine? && !createFails
      ensures r.Ok? ==> r.value == NewRecord(old(nextId), identity, filename, contentType, data, image.value, now) && r.value.id !in old(records)
      ensures r.Ok? ==> Shelves() == Stored(old(Shelves()), r.value, data)
      ensures r.Ok? ==> OwnedBy(r.value, identity) && r.value.filename == filename && r.value.createdAt == Iso(now) && r.value.digest == data
      ensures r.Err? ==> records == old(records) && torn == old(torn)
      ensures r.Err? && !(putFault.Fine? && createFails && !cleanupFault.Fine?) ==> blobs == old(blobs) && orphans == old(orphans)
      ensures r.Err? ==> (blobs == old(blobs) && orphans == old(orphans)) || Stray(old(blobs), blobs, old(orphans), orphans, data)
      ensures !Acceptable(maxBytes, maxPixels, identity, filename, contentType, data, image) ==> r == Err(Invalid) && Shelves() == old(Shelves())
      ensures Acceptable(maxBytes, maxPixels, identity, filename, contentType, data, image) && !verdict.Clean? ==>
                r == Err(if verdict.Detected? then Error.Detected else ScanUnavailable) && Shelves() == old(Shelves())
      ensures Acceptable(maxBytes, maxPixels, identity, filename, contentType, data, image) && verdict.Clean? ==>
                r.Ok? || r == Err(if putFault.Storage? then Invalid else Raised)
    {
      hide Consistent, SafeIdentity, SafeFilename, Allowed, Dated, Iso, RecordOk, Acceptable;
      if !Acceptable(maxBytes, maxPixels, identity, filename, contentType, data, image) {
        return Err(Invalid);
      }
      AcceptedImage(maxBytes, maxPixels, identity, filename, contentType, data, image);
      if !verdict.Clean? {
        return Err(if verdict.Detected? then Error.Detected else ScanUnavailable);
      }
      var id := nextId;
      var record := NewRecord(id, identity, filename, contentType, data, image.value, now);
      var path := record.path;
      NewRecordOk(maxBytes, maxPixels, identity, filename, contentType, data, image, id, now);
      OrphanOk(Shelves(), Limits(maxBytes, maxPixels), path, data);
      StoredOk(Shelves(), Limits(maxBytes, maxPixels), record, data);
      nextId := nextId + 1;
      if putFault.Storage? {
        return Err(Invalid);
      }
      if putFault.Fine? {
        blobs := blobs[path := data];
        if !createFails {
          records := records[id := record];
          return Ok(record);
        }
      }
      if cleanupFault.Fine? {
        blobs := blobs - {path};
        assert blobs == old(blobs);
      } else if putFault.Fine? {
        orphans := orphans + {path};
        assert path !in old(blobs) && Stray(old(blobs), blobs, old(orphans), orphans, data);
      }
      return Err(Raised);
    }

    /** `_scoped_record`. */
    function Scoped(id: nat, identity: Identity): Result<Record>
      reads this
    {
      if !SafeIdentity(identity) then Err(Invalid)
      else if id in records && InScope(records[id], identity) then Ok(records[id])
      else Err(NotFound)
    }

    /** `read_content`: the bytes as uploaded, unless the content is torn or the store fails. That bytes do
        not match their record is never found. */
    method Read(identity: Identity, id: nat, fault: bool) returns (r: Result<(Record, seq<Byte>)>)
      requires Valid()
      ensures Scoped(id, identity).Err? ==> r == Err(Scoped(id, identity).error)
      ensures Scoped(id, identity).Ok? ==> var record := records[id];
              if fault || record.path in torn then r == Err(NotFound)
              else Whole(record, blobs) && r == Ok((record, blobs[record.path]))
      ensures r.Ok? <==> WellIdentified(identity) && id in records && OwnedBy(records[id], identity) && !fault && records[id].path !in torn
      ensures r.Ok? ==> r.value.0 == records[id] && r.value.1 == records[id].digest
    {
      hide SafeIdentity, WellIdentified;
      SafeIdentityIff(identity);
      var scoped := Scoped(id, identity);
      if scoped.Err? {
        return Err(scoped.error);
      }
      var record := scoped.value;
      if fault || record.path !in blobs || |blobs[record.path]| > maxBytes {
        return Err(NotFound);
      }
      var data := blobs[record.path];
      if |data| != record.sizeBytes || data != record.digest {
        return Err(Invalid);
      }
      return Ok((record, data));
    }

    /** The content goes first, then the metadata; a failure in between leaves the record torn. */
    method Delete(identity: Identity, id: nat, blobFault: Fault, metadataFails: bool) returns (r: Result<Record>)
      requires Valid()
      modifies this
      ensures Valid()
      ensures r.Ok? <==> old(Scoped(id, identity)).Ok? && blobFault.Fine? && !metadataFails
      ensures r.Ok? ==> r == old(Scoped(id, identity)) && Shelves() == Without(old(Shelves()), id)
      ensures r.Err? && old(Scoped(id, identity)).Ok? && blobFault.Fine? ==> Shelves() == Torn(old(Shelves()), id)
      ensures old(Scoped(id, identity)).Err? || !blobFault.Fine? ==> Shelves() == old(Shelves())
      ensures old(Scoped(id, identity)).Err? ==> r == old(Scoped(id, identity))
      ensures r.Ok? ==> id in old(records) && r.value == old(records)[id] && OwnedBy(r.value, identity)
      ensures old(Scoped(id, identity)).Ok? && r.Err? ==> r.error == if blobFault.Storage? then Invalid else Raised
    {
      hide Consistent;
      var scoped := Scoped(id, identity);
      if scoped.Err? {
        return scoped;
      }
      if !blobFault.Fine? {
        return Err(if blobFault.Storage? then Invalid else Raised);
      }
      WithoutOk(Shelves(), Limits(maxBytes, maxPixels), id);
      TornOk(Shelves(), Limits(maxBytes, maxPixels), id);
      blobs := blobs - {scoped.value.path};
      if metadataFails {
        torn := torn + {scoped.value.path};
        return Err(Raised);
      }
      torn := torn - {scoped.value.path};
      records := records - {id};
      return scoped;
    }

    /** `list_before`, in the order in which the store happens to yield the records. */
    method ListBefore(cutoff: Instant) returns (expired: seq<Record>)
      requires Valid()
      ensures forall r :: r in expired <==> r.id in records && records[r.id] == r && Expired(r, cutoff)
      ensures forall i, j :: 0 <= i < j < |expired| ==> expired[i].id != expired[j].id
      ensures forall id <- records :: records[id].id == id
    {
      hide Before, Dated;
      expired := [];
      var left := records.Keys;
      while left != {}
        invariant left <= records.Keys
        invariant forall r :: r in expired <==> r.id in records && records[r.id] == r && r.id !in left && Expired(r, cutoff)
        invariant forall i, j :: 0 <= i < j < |expired| ==> expired[i].id != expired[j].id
      {
        var id :| id in left;
        ListingsAgree(records[id], cutoff);
        if Before(textual, records[id], cutoff) {
          expired := expired + [records[id]];
        }
        left := left - {id};
      }
    }

    /** The expired records go, and nothing else, up to the first failure; without one, all of them do. */
    method PurgeExpired(now: Instant, blobFault: nat -> Fault, metadataFails: nat -> bool) returns (r: Result<seq<Record>>, ghost gone: set<nat>)
      requires Valid()
      modifies this
      ensures Valid()
      ensures retentionSeconds <= 0 ==> r == Ok([]) && Shelves() == old(Shelves())
      ensures 0 < retentionSeconds && now < SECOND * retentionSeconds ==> r == Err(Raised) && Shelves() == old(Shelves())
      ensures 0 < retentionSeconds && SECOND * retentionSeconds <= now ==>
              PurgeOutcome(old(Shelves()), Shelves(), Due(old(records), now - SECOND * retentionSeconds), gone, r, blobFault, metadataFails)
    {
      hide Consistent, Purged, Due, Ids, Lists, StoppedAtOne, PurgeOutcome;
      gone := {};
      if retentionSeconds <= 0 {
        return Ok([]), gone;
      }
      if now < SECOND * retentionSeconds {
        return Err(Raised), gone;
      }
      ghost var start, due := Shelves(), Due(records, now - SECOND * retentionSeconds);
      var expired := ListBefore(now - SECOND * retentionSeconds);
      ListedDue(expired, records, now - SECOND * retentionSeconds);
      PurgedNothing(start);
      var deleted := [];
      for i := 0 to |expired|
        invariant Valid() && Shelves() == Purged(start, gone)
        invariant deleted == expired[..i] && gone == Ids(deleted)
        invariant gone <= due && forall id <- gone :: blobFault(id).Fine? && !metadataFails(id)
      {
        var id := expired[i].id;
        NextListed(expired, start.records, due, i);
        PurgeStep(start, gone, id, Limits(maxBytes, maxPixels));
        if !blobFault(id).Fine? {
          r := Err(if blobFault(id).Storage? then Invalid else Raised);
          PurgeStopped(start, Shelves(), due, gone, id, r.error, blobFault, metadataFails);
          return r, gone;
        }
        blobs := blobs - {expired[i].path};
        if metadataFails(id) {
          torn := torn + {expired[i].path};
          PurgeStopped(start, Shelves(), due, gone, id, Raised, blobFault, metadataFails);
          return Err(Raised), gone;
        }
        torn := torn - {expired[i].path};
        records := records - {id};
        deleted := deleted + [expired[i]];
        gone := gone + {id};
      }
      assert deleted == expired;
      PurgeDone(start, due, expired, blobFault, metadataFails);
      return Ok(deleted), gone;
    }
  }

  ghost function Due(records: map<nat, Record>, cutoff: Instant): (due: set<nat>)
    ensures due <= records.Keys
  {
    set id <- records | Expired(records[id], cutoff)
  }

  ghost predicate PurgeOutcome(s: Shelf, t: Shelf, due: set<nat>, gone: set<nat>, r: Result<seq<Record>>,
                               blobFault: nat -> Fault, metadataFails: nat -> bool)
    requires due <= s.records.Keys
  {
    && gone <= due
    && (r.Ok? <==> forall id <- due :: blobFault(id).Fine? && !metadataFails(id))
    && (r.Ok? ==> t == Purged(s, due) && Lists(r.value, s.records, due))
    && (r.Err? ==> StoppedAtOne(Purged(s, gone), t, due - gone, r.error, blobFault, metadataFails))
  }

  /** The purge stopped at a record whose content, or after it whose metadata, could not be deleted. */
  predicate StoppedAtOne(s: Shelf, t: Shelf, ids: set<nat>, error: Error, blobFault: nat -> Fault, metadataFails: nat -> bool) {
    exists id <- ids :: StoppedAt(s, t, id, error, blobFault(id), metadataFails(id))
  }

  predicate StoppedAt(s: Shelf, t: Shelf, id: nat, error: Error, blobFault: Fault, metadataFails: bool) {
    && id in s.records
    && (if blobFault.Fine? then metadataFails && t == Torn(s, id) else t == s)
    && error == if blobFault.Storage? then Invalid else Raised
  }

  lemma PurgeStopped(s: Shelf, t: Shelf, due: set<nat>, gone: set<nat>, id: nat, error: Error, blobFault: nat -> Fault, metadataFails: nat -> bool)
    requires gone <= due <= s.records.Keys && id in due - gone
    requires StoppedAt(Purged(s, gone), t, id, error, blobFault(id), metadataFails(id))
    ensures PurgeOutcome(s, t, due, gone, Err(error), blobFault, metadataFails)
  {
    hide Purged;
  }

  lemma PurgeDone(s: Shelf, due: set<nat>, expired: seq<Record>, blobFault: nat -> Fault, metadataFails: nat -> bool)
    requires due <= s.records.Keys && Lists(expired, s.records, due) && Ids(expired) == due
    requires forall id <- due :: blobFault(id).Fine? && !metadataFails(id)
    ensures PurgeOutcome(s, Purged(s, Ids(expired)), due, Ids(expired), Ok(expired), blobFault, metadataFails)
  {}

  lemma NextListed(expired: seq<Record>, records: map<nat, Record>, due: set<nat>, i: nat)
    requires due <= records.Keys && i < |expired| && Lists(expired, records, due)
    ensures expired[i].id in due - Ids(expired[..i]) && records[expired[i].id] == expired[i]
    ensures expired[..i + 1] == expired[..i] + [expired[i]] && Ids(expired[..i + 1]) == Ids(expired[..i]) + {expired[i].id}
  {}

  /** The listing is the set of due records. */
  lemma ListedDue(expired: seq<Record>, records: map<nat, Record>, cutoff: Instant)
    requires forall r :: r in expired <==> r.id in records && records[r.id] == r && Expired(r, cutoff)
    requires forall i, j :: 0 <= i < j < |expired| ==> expired[i].id != expired[j].id
    requires forall id <- records :: records[id].id == id
    ensures Lists(expired, records, Due(records, cutoff)) && Ids(expired) == Due(records, cutoff)
  {
    hide Expired;
    forall id | id in Due(records, cutoff)
      ensures records[id] in expired && id in Ids(expired)
    {
      assert records[id].id == id;
    }
    forall i | 0 <= i < |expired|
      ensures expired[i].id in Due(records, cutoff) && expired[i] == records[expired[i].id]
    {
      assert expired[i] in expired;
    }
  }

  /** Purging every due record leaves exactly the others, each with its content, and no content of a due one. */
  lemma PurgeIsExact(s: Shelf, limits: Limits, cutoff: Instant)
    requires Consistent(s, limits)
    ensures var t := Purged(s, Due(s.records, cutoff));
            && Consistent(t, limits) && t.orphans == s.orphans
            && (forall id :: id in t.records <==> id in s.records && !Expired(s.records[id], cutoff))
            && (forall p :: p in t.blobs <==> p in s.blobs && (p in s.orphans || !Expired(s.records[p.id], cutoff)))
            && forall p :: p in t.torn <==> p in s.torn && !Expired(s.records[p.id], cutoff)
  {
    hide Expired, Dated;
  }

  /** A record survives the purge exactly if it was made at the cutoff or later. */
  lemma PurgeIsByAge(s: Shelf, limits: Limits, cutoff: Instant, id: nat, made: Instant)
    requires Consistent(s, limits) && id in s.records && s.records[id].createdAt == Iso(made)
    ensures id in Purged(s, Due(s.records, cutoff)).records <==> cutoff <= made
  {
    hide Iso, Dated;
    ExpiredIff(s.records[id], made, cutoff);
    PurgeIsExact(s, limits, cutoff);
  }

  /** A record expires when its creation lies before the cutoff. */
  lemma ExpiredIff(r: Record, made: Instant, cutoff: Instant)
    requires r.createdAt == Iso(made)
    ensures Expired(r, cutoff) <==> made < cutoff
  {
    hide Iso, ParseIso;
    IsoRoundTrip(made);
  }

  lemma PurgeStep(s: Shelf, ids: set<nat>, id: nat, limits: Limits)
    requires Consistent(s, limits) && Consistent(Purged(s, ids), limits) && id in s.records && id !in ids
    ensures var t := Purged(s, ids);
            && id in t.records && t.records[id] == s.records[id]
            && Without(t, id) == Purged(s, ids + {id})
            && Consistent(Without(t, id), limits) && Consistent(Torn(t, id), limits)
  {
    hide Consistent;
    PurgedOneMore(s, ids, id, limits);
    WithoutOk(Purged(s, ids), limits, id);
    TornOk(Purged(s, ids), limits, id);
  }

  function Ids(rs: seq<Record>): set<nat> {
    set r <- rs :: r.id
  }

  lemma PurgedNothing(s: Shelf)
    ensures Purged(s, {}) == s && Ids([]) == {}
  {
    var t := Purged(s, {});
    assert t.records == s.records && t.blobs == s.blobs && t.torn == s.torn;
  }

  lemma DatedNow(r: Record, now: Instant)
    requires r.createdAt == Iso(now)
    ensures Dated(r)
  {}

  /** The blob that a failed clean-up leaves. */
  predicate Stray(before: map<Path, seq<Byte>>, after: map<Path, seq<Byte>>, orphansBefore: set<Path>, orphansAfter: set<Path>, data: seq<Byte>) {
    exists p <- orphansAfter :: p !in before && after == before[p := data] && orphansAfter == orphansBefore + {p}
  }

  /** The records of `ids`, each once. */
  predicate Lists(rs: seq<Record>, records: map<nat, Record>, ids: set<nat>)
    requires ids <= records.Keys
  {
    && (forall i :: 0 <= i < |rs| ==> rs[i].id in ids && rs[i] == records[rs[i].id])
    && (forall i, j :: 0 <= i < j < |rs| ==> rs[i].id != rs[j].id)
    && forall id <- ids :: records[id] in rs
  }
}
