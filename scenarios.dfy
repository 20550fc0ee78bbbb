/** Sequences of service calls, as a client would make them, and what the
    contracts of the individual calls guarantee about the sequence. */
module Scenarios {
  import opened Models
  import opened KeyNaming
  import opened Storage

  /** An upload that succeeds is part of the owner's next listing. The
      listing is a later request that signs its URLs again, so the entry
      carries the listing's URL and otherwise equals the upload result. */
  method UploadThenList(db: DbService, userId: string, fileName: string, stream: seq<byte>, contentType: string,
                        newId: string, now: Instant, presignUpload: Presigner, presignList: Presigner)
    returns (uploaded: Result<PhotoUploadResult>, listing: seq<PhotoUploadResult>)
    requires db.Valid()
    requires |stream| > 0 && (userId, newId) !in db.photos
    modifies db`objects, db`photos
    ensures db.Valid()
    ensures uploaded.Ok?
    ensures uploaded.value.id == newId && uploaded.value.photoKey == SanitizeKey(fileName)
    ensures var relisted := GetPhotoUrl(presignList, uploaded.value.photoKey, DEFAULT_URL_MINUTES);
      exists i :: 0 <= i < |listing| && listing[i] == uploaded.value.(url := relisted)
  {
    uploaded := db.UploadPhotoAsync(userId, fileName, Some(Fresh(stream)), contentType, None, None,
                                    newId, now, PutStatus(OK_STATUS), Completes, presignUpload);
    listing := db.GetUserPhotosAsync(userId, DEFAULT_URL_MINUTES, presignList);
    assert db.photos[(userId, newId)].userId == userId;
  }

  /** After a delete that succeeds, neither the record nor the object can be
      found. */
  method DeleteThenLookup(db: DbService, userId: string, photoId: string, photoKey: string,
                          deleteObject: CallOutcome, deleteRecord: CallOutcome)
    returns (deleted: Result<()>, found: Result<Option<PhotoMetadata>>)
    requires db.Valid()
    requires !IsNullOrWhiteSpace(Some(userId)) && !IsNullOrWhiteSpace(Some(photoId))
    requires !IsNullOrWhiteSpace(Some(photoKey))
    modifies db`objects, db`photos
    ensures deleted.Ok? <==>
      deleteObject == Completes && deleteRecord == Completes && (userId, photoId) in old(db.photos)
    ensures deleted.Ok? ==> found == Ok(None) && photoKey !in db.objects
  {
    deleted := db.DeletePhotoAsync(userId, photoId, photoKey, deleteObject, deleteRecord);
    found := db.GetPhotoByIdAsync(photoId, userId, Completes);
  }

  /** The probe finds what an upload of the same file name wrote, because
      both sanitise the name the same way. */
  method UploadThenProbe(db: DbService, fileName: string, stream: seq<byte>, contentType: string)
    returns (key: Result<string>, probed: Result<Option<ObjectMetadata>>)
    requires db.Valid()
    requires |stream| > 0
    modifies db`objects
    ensures key == Ok(SanitizeKey(fileName))
    ensures probed == Ok(Some(ObjectMetadata(SanitizeKey(fileName), |stream|, contentType)))
  {
    var rest;
    key, rest := db.UploadFileToR2Async(fileName, Some(Fresh(stream)), contentType, PutStatus(OK_STATUS));
    probed := db.GetKeyFromR2Async(fileName, Completes);
  }

  /** Two file names that differ only by a space against an underscore are
      stored under one key: the second put overwrites the first object. */
  method SpaceAndUnderscoreOverwrite(db: DbService, a: string, b: string,
                                     first: seq<byte>, second: seq<byte>, contentType: string)
    requires db.Valid()
    requires ReplaceSpaces(a) == ReplaceSpaces(b)
    requires |first| > 0 && |second| > 0
    modifies db`objects
    ensures db.objects == old(db.objects)[SanitizeKey(a) := StoredObject(second, contentType)]
    ensures SanitizeKey(b) == SanitizeKey(a)
  {
    SanitizeKeyCollision(a, b);
    var k1, _ := db.UploadFileToR2Async(a, Some(Fresh(first)), contentType, PutStatus(OK_STATUS));
    var k2, _ := db.UploadFileToR2Async(b, Some(Fresh(second)), contentType, PutStatus(OK_STATUS));
  }

  /** A zero-byte upload writes nothing anywhere. */
  method EmptyUploadWritesNothing(db: DbService, userId: string, fileName: string, contentType: string,
                                  newId: string, now: Instant, put: PutReply, create: CallOutcome,
                                  presign: Presigner)
    returns (r: Result<PhotoUploadResult>)
    requires db.Valid()
    modifies db`objects, db`photos
    ensures r == Err(GeneralException("Empty file stream"))
    ensures db.objects == old(db.objects) && db.photos == old(db.photos)
  {
    r := db.UploadPhotoAsync(userId, fileName, Some(Fresh([])), contentType, None, None,
                             newId, now, put, create, presign);
  }

  /** A create that fails after a put that succeeded leaves an object no
      record points at. */
  method FailedCreateOrphansObject(db: DbService, userId: string, fileName: string, stream: seq<byte>,
                                   contentType: string, newId: string, now: Instant, ex: Exception,
                                   presign: Presigner)
    returns (r: Result<PhotoUploadResult>)
    requires db.Valid()
    requires |stream| > 0
    modifies db`objects, db`photos
    ensures r == Err(ex)
    ensures SanitizeKey(fileName) in db.objects && db.photos == old(db.photos)
  {
    r := db.UploadPhotoAsync(userId, fileName, Some(Fresh(stream)), contentType, None, None,
                             newId, now, PutStatus(OK_STATUS), Throws(ex), presign);
  }

  /** Asking UploadUserImageAsync for both slots at once writes both from one
      stream: the banner put reads nothing, so the shared key ends up empty
      although both slots point at it. No controller passes both flags. */
  method BothSlotsFromOneStream(db: DbService, user: Users, fileName: string, stream: seq<byte>,
                                contentType: string, presign: Presigner, now: Instant)
    returns (r: Result<UserImageUploadResult>)
    requires db.Valid()
    requires |stream| > 0
    modifies db`objects, db`users
    ensures r.Ok?
    ensures r.value.ProfileKey == r.value.BannerKey == Some(SanitizeKey(fileName))
    ensures SanitizeKey(fileName) in db.objects && db.objects[SanitizeKey(fileName)] == StoredObject([], contentType)
  {
    var io := SlotIo(PutStatus(OK_STATUS), Completes);
    var after;
    r, after := db.UploadUserImageAsync(Some(user), fileName, Some(Fresh(stream)), true, true,
                                        contentType, io, io, presign, now);
  }
}
