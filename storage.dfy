/** Services/DbService.cs: the coordinator between the object store (an
    S3-compatible bucket) and the document store (a photos container
    partitioned by userId and a users container partitioned by email).
    Both stores are in-memory maps here; every SDK call takes its reply as a
    parameter, so that each failure a remote service can report is an
    explicit input. */
module Storage {
  import opened Models
  import opened KeyNaming

  /** One object of the bucket. */
  datatype StoredObject = StoredObject(content: seq<byte>, contentType: string)

  /** The part of `GetObjectMetadataResponse` the model keeps. */
  datatype ObjectMetadata = ObjectMetadata(key: string, contentLength: nat, contentType: string)

  /** What `PutObjectAsync` answers: a response with an HTTP status, or an exception. */
  datatype PutReply = PutStatus(code: int) | PutThrows(ex: Exception)

  /** What any other SDK call does apart from its effect on the store:
      it completes, or the service throws. */
  datatype CallOutcome = Completes | Throws(ex: Exception)

  /** The replies of the two remote calls one profile/banner slot update makes:
      the object put, then the user upsert. */
  datatype SlotIo = SlotIo(put: PutReply, upsert: CallOutcome)

  /** `GetPreSignedURL` for a key and a lifetime in minutes, with its clock and
      credentials folded in; None when signing throws (DbService.cs:205). */
  type Presigner = (string, int) -> Option<string>

  /** The default lifetime of a signed URL, in minutes. */
  const DEFAULT_URL_MINUTES := 60

  /** What Cosmos raises for a point operation on a missing item and for a
      create that clashes with an existing one. */
  const COSMOS_NOT_FOUND := CosmosException(NOT_FOUND, 0, "Resource Not Found")
  const COSMOS_CONFLICT := CosmosException(CONFLICT, 0, "Conflict")

  /** The address of a photo document: partition key (userId), then id. */
  type PhotoRef = (string, string)

  function RefOf(p: PhotoMetadata): PhotoRef {
    (p.userId, p.id)
  }

  /** The two user slots UploadUserImageAsync can rewrite. */
  datatype Slot = Profile | Banner

  /** The user with one slot pointing at a new key (DbService.cs:134, 147). */
  function WithSlot(u: Users, slot: Slot, key: string): (r: Users)
    ensures r.id == u.id && r.email == u.email && r.name == u.name
    ensures r.passwordHash == u.passwordHash && r.dateCreated == u.dateCreated
    ensures slot == Profile ==> r.ProfileImage == Some(key) && r.Banner == u.Banner
    ensures slot == Banner ==> r.Banner == Some(key) && r.ProfileImage == u.ProfileImage
  {
    match slot
    case Profile => u.(ProfileImage := Some(key))
    case Banner => u.(Banner := Some(key))
  }

  /** `catch (CosmosException ex) when (ex.StatusCode == NotFound)`. */
  predicate IsCosmosNotFound(ex: Exception) {
    ex.CosmosException? && ex.statusCode == NOT_FOUND
  }

  /** `catch (AmazonS3Exception ex) when (ex.StatusCode == NotFound)`. */
  predicate IsS3NotFound(ex: Exception) {
    ex.AmazonS3Exception? && ex.statusCode == NOT_FOUND
  }

  /** A readable stream: its bytes and its read position. `Length` is the
      whole length whatever the position; a copy reads from the position on
      and leaves the position at the end. */
  datatype Stream = Stream(data: seq<byte>, position: nat) {
    /** `stream.Length`. */
    function Length(): nat {
      |data|
    }

    /** The bytes `CopyToAsync` reads. */
    function Rest(): seq<byte> {
      if position <= |data| then data[position..] else []
    }

    /** The stream once it has been copied to its end. */
    function Drained(): (s: Stream)
      ensures s.Length() == Length() && s.Rest() == []
    {
      Stream(data, |data|)
    }
  }

  /** A stream at its start, as `IFormFile.OpenReadStream` and the resizer
      (ImageService.cs:32) hand one over. */
  function Fresh(bytes: seq<byte>): (s: Stream)
    ensures s.Length() == |bytes| && s.Rest() == bytes
  {
    Stream(bytes, 0)
  }

  /** An upload stream that UploadFileToR2Async accepts: non-null, non-empty. */
  predicate IsUploadable(stream: Option<Stream>) {
    stream.Some? && stream.value.Length() > 0
  }

  /** The stream after UploadFileToR2Async: copied to its end once it has
      passed the emptiness check, whatever the put then does. */
  function AfterUpload(stream: Option<Stream>): (s: Option<Stream>)
    ensures IsUploadable(s) == IsUploadable(stream)
    ensures IsUploadable(stream) ==> s.value.Rest() == [] && s.value.Length() == stream.value.Length()
    ensures !IsUploadable(stream) ==> s == stream
  {
    if IsUploadable(stream) then Some(stream.value.Drained()) else stream
  }

  /** The object a put stores: the unread bytes of the stream. */
  function Written(stream: Option<Stream>, contentType: string): StoredObject
    requires IsUploadable(stream)
  {
    StoredObject(stream.value.Rest(), contentType)
  }

  /** The object write of UploadFileToR2Async goes through. */
  predicate PutSucceeds(stream: Option<Stream>, put: PutReply) {
    IsUploadable(stream) && put == PutStatus(OK_STATUS)
  }

  /** The exception UploadFileToR2Async raises when the write does not go through. */
  function PutError(stream: Option<Stream>, put: PutReply): Exception
    requires !PutSucceeds(stream, put)
  {
    if !IsUploadable(stream) then GeneralException("Empty file stream")
    else if put.PutThrows? then put.ex
    else GeneralException("R2 upload failed")
  }

  /** A slot update runs to the end: its put and its upsert both go through. */
  predicate SlotSucceeds(stream: Option<Stream>, io: SlotIo) {
    PutSucceeds(stream, io.put) && io.upsert == Completes
  }

  /** The exception a slot update that does not run to the end raises: that
      of the put, or else that of the upsert. */
  function SlotFailure(stream: Option<Stream>, io: SlotIo): Exception
    requires !SlotSucceeds(stream, io)
  {
    if !PutSucceeds(stream, io.put) then PutError(stream, io.put) else io.upsert.ex
  }

  /** `GetPhotoUrl`: the signed URL, or an explicit absence. */
  function GetPhotoUrl(presign: Presigner, key: string, expiresMinutes: int): Option<string> {
    presign(key, expiresMinutes)
  }

  /** The result shape of upload and listing, built from a record (DbService.cs:105-113, 225-233). */
  function ToUploadResult(p: PhotoMetadata, url: Option<string>): PhotoUploadResult {
    PhotoUploadResult(p.id, p.photoKey, url, p.title, p.desc, p.dateCreated)
  }

  /** Every photo document is stored under its own (userId, id). */
  ghost predicate PhotosKeyed(photos: map<PhotoRef, PhotoMetadata>) {
    forall r :: r in photos ==> RefOf(photos[r]) == r
  }

  /** Every user document is stored under its own e-mail, the partition key. */
  ghost predicate UsersKeyed(users: map<string, Users>) {
    forall e :: e in users ==> users[e].email == e
  }

  /** The user document with the given e-mail, if any (the query of
      DbService.cs:295, over a store keyed by e-mail). */
  function FindUserByEmail(users: map<string, Users>, email: string): (u: Option<Users>)
    requires UsersKeyed(users)
    ensures u.Some? <==> exists e :: e in users && users[e].email == email
    ensures u.Some? ==> u.value in users.Values && u.value.email == email
  {
    if email in users then Some(users[email]) else None
  }

  class DbService {
    /** The bucket: key to object. */
    var objects: map<string, StoredObject>
    /** The photos container. */
    var photos: map<PhotoRef, PhotoMetadata>
    /** The users container. */
    var users: map<string, Users>

    ghost predicate Valid()
      reads this
    {
      PhotosKeyed(photos) && UsersKeyed(users)
    }

    /** A service over stores that already hold the given contents; the
        configuration the real constructor reads is not part of this model. */
    constructor (objects0: map<string, StoredObject>, photos0: map<PhotoRef, PhotoMetadata>, users0: map<string, Users>)
      requires PhotosKeyed(photos0) && UsersKeyed(users0)
      ensures Valid()
      ensures objects == objects0 && photos == photos0 && users == users0
    {
      objects, photos, users := objects0, photos0, users0;
    }

    // -------------------------------------------------------------------
    // Object store
    // -------------------------------------------------------------------

    /** Rejects an empty stream before anything is written, sanitises the
        key, copies the stream to its end, writes what it read and returns
        the key; a non-OK reply raises. `streamAfter` is the caller's stream
        when the call returns or throws. */
    method UploadFileToR2Async(key: string, stream: Option<Stream>, contentType: string, put: PutReply)
      returns (r: Result<string>, streamAfter: Option<Stream>)
      modifies this`objects
      ensures streamAfter == AfterUpload(stream)
      ensures PutSucceeds(stream, put) ==>
        && r == Ok(SanitizeKey(key))
        && objects == old(objects)[SanitizeKey(key) := Written(stream, contentType)]
      ensures !PutSucceeds(stream, put) ==>
        r == Err(PutError(stream, put)) && objects == old(objects)
    {
      if stream.None? || stream.value.Length() == 0 {
        return Err(GeneralException("Empty file stream")), stream;
      }
      var sanitized := SanitizeKey(key);
      var copied := stream.value.Rest();
      streamAfter := Some(stream.value.Drained());
      match put
      case PutThrows(ex) =>
        return Err(ex), streamAfter;
      case PutStatus(code) =>
        if code != OK_STATUS {
          return Err(GeneralException("R2 upload failed")), streamAfter;
        }
        objects := objects[sanitized := StoredObject(copied, contentType)];
        return Ok(sanitized), streamAfter;
    }

    /** Probes the metadata of the object a file name would be stored under;
        a 404 from the store means "absent", any other failure propagates. */
    method GetKeyFromR2Async(fileName: string, probe: CallOutcome) returns (r: Result<Option<ObjectMetadata>>)
      ensures probe.Throws? ==> r == (if IsS3NotFound(probe.ex) then Ok(None) else Err(probe.ex))
      ensures probe == Completes ==> r.Ok? && (r.value.Some? <==> SanitizeKey(fileName) in objects)
      ensures r.Ok? && r.value.Some? ==>
        var key := SanitizeKey(fileName);
        && key in objects
        && r.value.value == ObjectMetadata(key, |objects[key].content|, objects[key].contentType)
    {
      var key := SanitizeKey(fileName);
      if probe.Throws? {
        if IsS3NotFound(probe.ex) {
          return Ok(None);
        }
        return Err(probe.ex);
      }
      if key !in objects {
        // the store answers 404, which the catch filter turns into null
        return Ok(None);
      }
      var obj := objects[key];
      return Ok(Some(ObjectMetadata(key, |obj.content|, obj.contentType)));
    }

    // -------------------------------------------------------------------
    // Photos
    // -------------------------------------------------------------------

    /** Writes the object first and the record second: a failed put leaves no
        record, and a failed create leaves the object without a record. */
    method UploadPhotoAsync(userId: string, fileName: string, stream: Option<Stream>, contentType: string,
                            title: Option<string>, desc: Option<string>,
                            newId: string, now: Instant, put: PutReply, create: CallOutcome, presign: Presigner)
      returns (r: Result<PhotoUploadResult>)
      requires Valid()
      modifies this`objects, this`photos
      ensures Valid()
      // the put fails: nothing is written
      ensures !PutSucceeds(stream, put) ==>
        r == Err(PutError(stream, put)) && objects == old(objects) && photos == old(photos)
      // the put succeeds: the object stays, whatever the create does
      ensures PutSucceeds(stream, put) ==>
        objects == old(objects)[SanitizeKey(fileName) := Written(stream, contentType)]
      // the create fails: an orphaned object and no record
      ensures PutSucceeds(stream, put) && create.Throws? ==> r == Err(create.ex) && photos == old(photos)
      ensures PutSucceeds(stream, put) && create == Completes && (userId, newId) in old(photos) ==>
        r == Err(COSMOS_CONFLICT) && photos == old(photos)
      // both succeed: exactly one new record, echoed in the result
      ensures r.Ok? <==> PutSucceeds(stream, put) && create == Completes && (userId, newId) !in old(photos)
      ensures r.Ok? ==>
        var rec := PhotoMetadata(newId, userId, SanitizeKey(fileName), fileName,
                                 title.GetOr(fileName), desc.GetOr("Uploaded by user"), now);
        && photos == old(photos)[(userId, newId) := rec]
        && r.value == ToUploadResult(rec, GetPhotoUrl(presign, rec.photoKey, DEFAULT_URL_MINUTES))
    {
      var photoKey, _ := UploadFileToR2Async(fileName, stream, contentType, put);
      if photoKey.Err? {
        return Err(photoKey.error);
      }
      var photo := PhotoMetadata(
        newId, userId, photoKey.value, fileName,
        title.GetOr(fileName), desc.GetOr("Uploaded by user"), now);
      var created := CreatePhotoItem(photo, create);
      if created.Err? {
        return Err(created.error);
      }
      return Ok(ToUploadResult(photo, GetPhotoUrl(presign, photo.photoKey, DEFAULT_URL_MINUTES)));
    }

    /** `CreateItemAsync` on the photos container, partition key userId. */
    method CreatePhotoItem(photo: PhotoMetadata, create: CallOutcome) returns (r: Result<()>)
      requires Valid()
      modifies this`photos
      ensures Valid()
      ensures create.Throws? ==> r == Err(create.ex) && photos == old(photos)
      ensures create == Completes && RefOf(photo) in old(photos) ==> r == Err(COSMOS_CONFLICT) && photos == old(photos)
      ensures create == Completes && RefOf(photo) !in old(photos) ==>
        r == Ok(()) && photos == old(photos)[RefOf(photo) := photo]
    {
      if create.Throws? {
        return Err(create.ex);
      }
      if RefOf(photo) in photos {
        return Err(COSMOS_CONFLICT);
      }
      photos := photos[RefOf(photo) := photo];
      return Ok(());
    }

    /** Lists the photos of one user: exactly one result per stored record
        whose userId matches, in no particular order. */
    method GetUserPhotosAsync(userId: string, expiresMinutes: int, presign: Presigner)
      returns (results: seq<PhotoUploadResult>)
      requires Valid()
      ensures forall i :: 0 <= i < |results| ==>
        exists p :: p in photos && photos[p].userId == userId
          && results[i] == ToUploadResult(photos[p], GetPhotoUrl(presign, photos[p].photoKey, expiresMinutes))
      ensures forall p :: p in photos && photos[p].userId == userId ==>
        ToUploadResult(photos[p], GetPhotoUrl(presign, photos[p].photoKey, expiresMinutes)) in results
      ensures forall i, j :: 0 <= i < j < |results| ==> results[i].id != results[j].id
    {
      results := [];
      var remaining := photos.Keys;
      ghost var listed: seq<PhotoRef> := [];
      while remaining != {}
        invariant remaining <= photos.Keys
        invariant |listed| == |results|
        invariant forall i :: 0 <= i < |listed| ==>
          && listed[i] in photos && listed[i] !in remaining && photos[listed[i]].userId == userId
          && results[i] == ToUploadResult(photos[listed[i]], GetPhotoUrl(presign, photos[listed[i]].photoKey, expiresMinutes))
        invariant forall i, j :: 0 <= i < j < |listed| ==> listed[i] != listed[j]
        invariant forall p :: p in photos && p !in remaining && photos[p].userId == userId ==> p in listed
        decreases remaining
      {
        var p :| p in remaining;
        var photo := photos[p];
        if photo.userId == userId {
          results := results + [ToUploadResult(photo, GetPhotoUrl(presign, photo.photoKey, expiresMinutes))];
          listed := listed + [p];
        }
        remaining := remaining - {p};
      }
      forall i, j | 0 <= i < j < |results| ensures results[i].id != results[j].id {
        assert listed[i] != listed[j];
        assert RefOf(photos[listed[i]]) == listed[i] && RefOf(photos[listed[j]]) == listed[j];
      }
      forall p | p in photos && photos[p].userId == userId
        ensures ToUploadResult(photos[p], GetPhotoUrl(presign, photos[p].photoKey, expiresMinutes)) in results
      {
        var i :| 0 <= i < |listed| && listed[i] == p;
        assert results[i] == ToUploadResult(photos[p], GetPhotoUrl(presign, photos[p].photoKey, expiresMinutes));
      }
    }

    /** Point read of one record; a 404 from the store is "no such photo". */
    method GetPhotoByIdAsync(photoId: string, userId: string, read: CallOutcome)
      returns (r: Result<Option<PhotoMetadata>>)
      requires Valid()
      ensures read.Throws? ==> r == (if IsCosmosNotFound(read.ex) then Ok(None) else Err(read.ex))
      ensures read == Completes ==> r.Ok? && (r.value.Some? <==> (userId, photoId) in photos)
      ensures r.Ok? && r.value.Some? ==>
        && (userId, photoId) in photos
        && r.value.value == photos[(userId, photoId)]
        && r.value.value.id == photoId && r.value.value.userId == userId
    {
      if read.Throws? {
        if IsCosmosNotFound(read.ex) {
          return Ok(None);
        }
        return Err(read.ex);
      }
      if (userId, photoId) !in photos {
        // ReadItemAsync raises a 404, which the catch filter turns into null
        return Ok(None);
      }
      return Ok(Some(photos[(userId, photoId)]));
    }

    /** `ReplaceItemAsync`: overwrites the record stored under the photo's own
        (userId, id); a missing record is a 404. */
    method UpdatePhotoAsync(photo: PhotoMetadata, replace: CallOutcome) returns (r: Result<()>)
      requires Valid()
      modifies this`photos
      ensures Valid()
      ensures replace.Throws? ==> r == Err(replace.ex) && photos == old(photos)
      ensures replace == Completes && RefOf(photo) !in old(photos) ==>
        r == Err(COSMOS_NOT_FOUND) && photos == old(photos)
      ensures replace == Completes && RefOf(photo) in old(photos) ==>
        r == Ok(()) && photos == old(photos)[RefOf(photo) := photo]
    {
      if replace.Throws? {
        return Err(replace.ex);
      }
      if RefOf(photo) !in photos {
        return Err(COSMOS_NOT_FOUND);
      }
      photos := photos[RefOf(photo) := photo];
      return Ok(());
    }

    /** Deletes the object first, then the record. Deleting an absent object
        succeeds; deleting an absent record is a 404 from the store. */
    method DeletePhotoAsync(userId: string, photoId: string, photoKey: string,
                            deleteObject: CallOutcome, deleteRecord: CallOutcome)
      returns (r: Result<()>)
      requires Valid()
      // the guard of the delete endpoint (DeleteController.cs:24)
      requires !IsNullOrWhiteSpace(Some(userId)) && !IsNullOrWhiteSpace(Some(photoId))
      requires !IsNullOrWhiteSpace(Some(photoKey))
      modifies this`objects, this`photos
      ensures Valid()
      ensures deleteObject.Throws? ==>
        r == Err(deleteObject.ex) && objects == old(objects) && photos == old(photos)
      ensures deleteObject == Completes ==> objects == old(objects) - {photoKey}
      // the object is gone but the record stays: the order the code uses
      ensures deleteObject == Completes && deleteRecord.Throws? ==>
        r == Err(deleteRecord.ex) && photos == old(photos)
      ensures deleteObject == Completes && deleteRecord == Completes ==>
        && photos == old(photos) - {(userId, photoId)}
        && r == (if (userId, photoId) in old(photos) then Ok(()) else Err(COSMOS_NOT_FOUND))
      ensures r.Ok? ==> photoKey !in objects && (userId, photoId) !in photos
    {
      if deleteObject.Throws? {
        return Err(deleteObject.ex);
      }
      objects := objects - {photoKey};
      if deleteRecord.Throws? {
        return Err(deleteRecord.ex);
      }
      if (userId, photoId) !in photos {
        return Err(COSMOS_NOT_FOUND);
      }
      photos := photos - {(userId, photoId)};
      return Ok(());
    }

    // -------------------------------------------------------------------
    // Users
    // -------------------------------------------------------------------

    /** The user whose e-mail equals the argument exactly, or null. */
    method GetUserByEmailAsync(email: string) returns (u: Option<Users>)
      requires Valid()
      ensures u == FindUserByEmail(users, email)
      ensures u.Some? <==> email in users
      ensures u.Some? ==> u.value == users[email] && u.value.email == email
    {
      if email in users {
        return Some(users[email]);
      }
      return None;
    }

    /** `CreateItemAsync` on the users container, partition key email. */
    method CreateUserAsync(user: Users, create: CallOutcome) returns (r: Result<Users>)
      requires Valid()
      modifies this`users
      ensures Valid()
      ensures create.Throws? ==> r == Err(create.ex) && users == old(users)
      ensures create == Completes && user.email in old(users) ==>
        r == Err(COSMOS_CONFLICT) && users == old(users)
      ensures create == Completes && user.email !in old(users) ==>
        r == Ok(user) && users == old(users)[user.email := user]
    {
      if create.Throws? {
        return Err(create.ex);
      }
      if user.email in users {
        return Err(COSMOS_CONFLICT);
      }
      users := users[user.email := user];
      return Ok(user);
    }

    /** `UpsertItemAsync` on the users container, partition key email. */
    method UpdateUserAsync(user: Users, upsert: CallOutcome) returns (r: Result<()>)
      requires Valid()
      modifies this`users
      ensures Valid()
      ensures upsert.Throws? ==> r == Err(upsert.ex) && users == old(users)
      ensures upsert == Completes ==> r == Ok(()) && users == old(users)[user.email := user]
    {
      if upsert.Throws? {
        return Err(upsert.ex);
      }
      users := users[user.email := user];
      return Ok(());
    }

    /** One requested slot of UploadUserImageAsync (lines 133-135 and
        146-148): put the object, point the slot of the user object at the
        new key, upsert the user. `after` is the user object and
        `streamAfter` the stream afterwards. */
    method StoreSlot(user: Users, slot: Slot, fileName: string, stream: Option<Stream>,
                     contentType: string, io: SlotIo)
      returns (r: Result<string>, after: Users, streamAfter: Option<Stream>)
      requires Valid()
      modifies this`objects, this`users
      ensures Valid()
      ensures streamAfter == AfterUpload(stream)
      ensures !PutSucceeds(stream, io.put) ==>
        && r == Err(PutError(stream, io.put)) && after == user
        && objects == old(objects) && users == old(users)
      ensures PutSucceeds(stream, io.put) ==>
        && objects == old(objects)[SanitizeKey(fileName) := Written(stream, contentType)]
        && after == WithSlot(user, slot, SanitizeKey(fileName))
      ensures PutSucceeds(stream, io.put) && io.upsert.Throws? ==>
        r == Err(io.upsert.ex) && users == old(users)
      ensures SlotSucceeds(stream, io) ==>
        r == Ok(SanitizeKey(fileName)) && users == old(users)[after.email := after]
    {
      after := user;
      var key;
      key, streamAfter := UploadFileToR2Async(fileName, stream, contentType, io.put);
      if key.Err? {
        return Err(key.error), after, streamAfter;
      }
      after := WithSlot(after, slot, key.value);
      var upserted := UpdateUserAsync(after, io.upsert);
      if upserted.Err? {
        return Err(upserted.error), after, streamAfter;
      }
      return Ok(key.value), after, streamAfter;
    }

    /** Rewrites the requested slots of a user: each requested slot gets the
        sanitised key of the new object and the user is upserted; an
        unrequested slot reports the key the user already has. There is no
        existence check: the object is written whether or not the key is
        already in the bucket. Both slots are written from the one stream, so
        with both flags set the banner put finds it at its end and overwrites
        the key with an empty object. `after` is the state of the caller's
        user object when the call returns or throws. */
    method UploadUserImageAsync(user: Option<Users>, fileName: string, stream: Option<Stream>,
                                isProfileImage: bool, isBannerImage: bool, contentType: string,
                                profileIo: SlotIo, bannerIo: SlotIo, presign: Presigner, now: Instant)
      returns (r: Result<UserImageUploadResult>, after: Option<Users>)
      requires Valid()
      modifies this`objects, this`users
      ensures Valid()
      ensures user.None? ==>
        && r == Err(ArgumentNullException("user")) && after == None
        && objects == old(objects) && users == old(users)
      ensures user.Some? ==> after.Some? && after.value.email == user.value.email
      ensures r.Ok? <==>
        && user.Some?
        && (isProfileImage ==> SlotSucceeds(stream, profileIo))
        && (isBannerImage ==> SlotSucceeds(stream, bannerIo))
      // the profile step fails: its put wrote nothing, or its upsert did not happen
      ensures user.Some? && isProfileImage && !SlotSucceeds(stream, profileIo) ==>
        && r == Err(SlotFailure(stream, profileIo))
        && users == old(users)
        && (!PutSucceeds(stream, profileIo.put) ==> after == user && objects == old(objects))
        && (PutSucceeds(stream, profileIo.put) ==>
              && after == Some(WithSlot(user.value, Profile, SanitizeKey(fileName)))
              && objects == old(objects)[SanitizeKey(fileName) := Written(stream, contentType)])
      // the banner step fails after the profile step has run or been skipped
      ensures user.Some? && (isProfileImage ==> SlotSucceeds(stream, profileIo))
              && isBannerImage && !SlotSucceeds(stream, bannerIo) ==>
        var key := SanitizeKey(fileName);
        var u1 := if isProfileImage then WithSlot(user.value, Profile, key) else user.value;
        var objects1 := if isProfileImage then old(objects)[key := Written(stream, contentType)] else old(objects);
        var users1 := if isProfileImage then old(users)[u1.email := u1] else old(users);
        var stream1 := if isProfileImage then AfterUpload(stream) else stream;
        && r == Err(SlotFailure(stream, bannerIo))
        && users == users1
        && (!PutSucceeds(stream, bannerIo.put) ==> after == Some(u1) && objects == objects1)
        && (PutSucceeds(stream, bannerIo.put) ==>
              && after == Some(WithSlot(u1, Banner, key))
              && objects == objects1[key := Written(stream1, contentType)])
      ensures r.Ok? ==>
        var res, u0, u := r.value, user.value, after.value;
        var key := SanitizeKey(fileName);
        var stream1 := if isProfileImage then AfterUpload(stream) else stream;
        && res.ProfileKey == (if isProfileImage then Some(key) else u0.ProfileImage)
        && res.BannerKey == (if isBannerImage then Some(key) else u0.Banner)
        && u == u0.(ProfileImage := res.ProfileKey, Banner := res.BannerKey)
        && res.ProfileUrl == (if res.ProfileKey.Some? then GetPhotoUrl(presign, res.ProfileKey.value, DEFAULT_URL_MINUTES) else None)
        && res.BannerUrl == (if res.BannerKey.Some? then GetPhotoUrl(presign, res.BannerKey.value, DEFAULT_URL_MINUTES) else None)
        && res.DateCreated == now
        && users == (if isProfileImage || isBannerImage then old(users)[u.email := u] else old(users))
        && objects == (if isBannerImage then old(objects)[key := Written(stream1, contentType)]
                       else if isProfileImage then old(objects)[key := Written(stream, contentType)]
                       else old(objects))
      // with both flags the second put reads nothing: the key ends up empty
      ensures r.Ok? && isProfileImage && isBannerImage ==>
        objects == old(objects)[SanitizeKey(fileName) := StoredObject([], contentType)]
      // whatever happens, only the new key and the user's own document can change
      ensures forall k :: k != SanitizeKey(fileName) ==>
        (k in objects <==> k in old(objects)) && (k in objects ==> objects[k] == old(objects)[k])
      ensures forall e :: (user.None? || e != user.value.email) ==>
        (e in users <==> e in old(users)) && (e in users ==> users[e] == old(users)[e])
    {
      if user.None? {
        return Err(ArgumentNullException("user")), None;
      }
      var u := user.value;
      var s := stream;
      var profileKey: Option<string>;
      var bannerKey: Option<string>;

      if isProfileImage {
        var stored;
        stored, u, s := StoreSlot(u, Profile, fileName, s, contentType, profileIo);
        if stored.Err? {
          return Err(stored.error), Some(u);
        }
        profileKey := Some(stored.value);
      } else {
        profileKey := u.ProfileImage;
      }

      if isBannerImage {
        var stored;
        stored, u, s := StoreSlot(u, Banner, fileName, s, contentType, bannerIo);
        if stored.Err? {
          return Err(stored.error), Some(u);
        }
        bannerKey := Some(stored.value);
      } else {
        bannerKey := u.Banner;
      }

      var result := UserImageUploadResult(
        profileKey,
        if profileKey.Some? then GetPhotoUrl(presign, profileKey.value, DEFAULT_URL_MINUTES) else None,
        bannerKey,
        if bannerKey.Some? then GetPhotoUrl(presign, bannerKey.value, DEFAULT_URL_MINUTES) else None,
        now);
      return Ok(result), Some(u);
    }
  }
}
