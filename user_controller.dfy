/** Controllers/UserController.cs: replacing a user's profile and/or banner
    image. Both service calls share one user object, so the second call sees
    the slot the first one set. */
module UserApi {
  import opened Models
  import opened KeyNaming
  import opened Storage

  /** An uploaded form file: its name, its content type and its bytes. */
  datatype FormFile = FormFile(FileName: string, ContentType: string, content: seq<byte>)

  /** `ImageService.ResizeImageAsync`: resizing and JPEG re-encoding, which
      throws on input it cannot decode. */
  type Normalizer = seq<byte> -> Result<seq<byte>>

  /** The action results. */
  datatype ProfileResult =
    | ProfileOk(profile: Option<UserImageUploadResult>, banner: Option<UserImageUploadResult>, user: Users)
    | ProfileNotFound(error: string)
    | ProfileBadRequest(error: string)
    | ProfileServerError(status: int, error: string)

  /** The key a supplied file ends up under: `<guid>_<file name>`, sanitised;
      a Guid's text passes through sanitisation unchanged. */
  function SlotKey(guid: string, file: FormFile): (k: string)
    ensures IsGuidText(guid) ==> k == guid + "_" + SanitizeKey(file.FileName)
  {
    var key := SanitizeKey(UniqueFileName(guid, file.FileName));
    if IsGuidText(guid) then UniqueFileNameKey(guid, file.FileName); key else key
  }

  /** The resized stream handed to the service, at its start (ImageService.cs:32). */
  function Resized(file: FormFile, normalize: Normalizer): Option<Stream>
    requires normalize(file.content).Ok?
  {
    Some(Fresh(normalize(file.content).value))
  }

  /** Everything one supplied file goes through succeeds: the resize, the put
      of the resized bytes and the upsert of the user. */
  predicate FileSucceeds(file: FormFile, normalize: Normalizer, io: SlotIo) {
    normalize(file.content).Ok? && SlotSucceeds(Resized(file, normalize), io)
  }

  /** Neither supplied file fails to resize. */
  predicate ResizesSucceed(profileFile: Option<FormFile>, bannerFile: Option<FormFile>, normalize: Normalizer) {
    && (profileFile.Some? ==> normalize(profileFile.value.content).Ok?)
    && (bannerFile.Some? ==> normalize(bannerFile.value.content).Ok?)
  }

  /** The bucket after the supplied file, if any, has been stored. */
  function WithFile(objects: map<string, StoredObject>, file: Option<FormFile>, guid: string, normalize: Normalizer)
    : map<string, StoredObject>
  {
    if file.Some? && normalize(file.value.content).Ok?
    then objects[SlotKey(guid, file.value) := StoredObject(normalize(file.value.content).value, file.value.ContentType)]
    else objects
  }

  class UserController {
    const db: DbService

    constructor (db: DbService)
      ensures this.db == db
    {
      this.db := db;
    }

    /** `PATCH api/user/update/{email}`. The user must exist; every supplied
        file is resized and stored under a fresh `<guid>_<name>` key before
        the slot is rewritten; with both files the profile call runs first on
        the same user object; with neither, nothing is written; an exception
        anywhere is a 500 carrying its message. */
    method UpdateUserProfile(email: string, profileFile: Option<FormFile>, bannerFile: Option<FormFile>,
                             profileGuid: string, bannerGuid: string, normalize: Normalizer,
                             profileIo: SlotIo, bannerIo: SlotIo, presign: Presigner, now: Instant)
      returns (r: ProfileResult)
      requires db.Valid()
      modifies db`objects, db`users
      ensures db.Valid()
      ensures email !in old(db.users) ==>
        r == ProfileNotFound("User not found") && db.objects == old(db.objects) && db.users == old(db.users)
      ensures email in old(db.users) && profileFile.None? && bannerFile.None? ==>
        r == ProfileBadRequest("No files uploaded") && db.objects == old(db.objects) && db.users == old(db.users)
      // a failed resize comes before any write
      ensures email in old(db.users) && profileFile.Some? && normalize(profileFile.value.content).Err? ==>
        && r == ProfileServerError(INTERNAL_SERVER_ERROR, normalize(profileFile.value.content).error.Message())
        && db.objects == old(db.objects) && db.users == old(db.users)
      ensures email in old(db.users) && (profileFile.None? || normalize(profileFile.value.content).Ok?)
              && bannerFile.Some? && normalize(bannerFile.value.content).Err? ==>
        && r == ProfileServerError(INTERNAL_SERVER_ERROR, normalize(bannerFile.value.content).error.Message())
        && db.objects == old(db.objects) && db.users == old(db.users)
      // a service call that fails is a 500 with the message of the first one that fails
      ensures email in old(db.users) && ResizesSucceed(profileFile, bannerFile, normalize)
              && profileFile.Some? && !SlotSucceeds(Resized(profileFile.value, normalize), profileIo) ==>
        r == ProfileServerError(INTERNAL_SERVER_ERROR,
                                SlotFailure(Resized(profileFile.value, normalize), profileIo).Message())
      ensures email in old(db.users) && ResizesSucceed(profileFile, bannerFile, normalize)
              && (profileFile.Some? ==> SlotSucceeds(Resized(profileFile.value, normalize), profileIo))
              && bannerFile.Some? && !SlotSucceeds(Resized(bannerFile.value, normalize), bannerIo) ==>
        r == ProfileServerError(INTERNAL_SERVER_ERROR,
                                SlotFailure(Resized(bannerFile.value, normalize), bannerIo).Message())
      ensures r.ProfileServerError? ==> r.status == INTERNAL_SERVER_ERROR
      ensures r.ProfileOk? <==>
        && email in old(db.users)
        && (profileFile.Some? || bannerFile.Some?)
        && (profileFile.Some? ==> FileSucceeds(profileFile.value, normalize, profileIo))
        && (bannerFile.Some? ==> FileSucceeds(bannerFile.value, normalize, bannerIo))
      ensures r.ProfileOk? ==>
        var u0 := old(db.users)[email];
        var profileKey := if profileFile.Some? then Some(SlotKey(profileGuid, profileFile.value)) else u0.ProfileImage;
        var bannerKey := if bannerFile.Some? then Some(SlotKey(bannerGuid, bannerFile.value)) else u0.Banner;
        && r.user == u0.(ProfileImage := profileKey, Banner := bannerKey)
        && db.users == old(db.users)[email := r.user]
        && db.objects == WithFile(WithFile(old(db.objects), profileFile, profileGuid, normalize),
                                  bannerFile, bannerGuid, normalize)
        && (r.profile.Some? <==> profileFile.Some?)
        && (r.banner.Some? <==> bannerFile.Some?)
        && (r.profile.Some? ==> r.profile.value.ProfileKey == profileKey && r.profile.value.BannerKey == u0.Banner)
        && (r.banner.Some? ==> r.banner.value.BannerKey == bannerKey && r.banner.value.ProfileKey == profileKey)
      // whatever happens, only the new keys and this user's document can change
      ensures forall k ::
        ((profileFile.None? || k != SlotKey(profileGuid, profileFile.value))
         && (bannerFile.None? || k != SlotKey(bannerGuid, bannerFile.value))) ==>
        (k in db.objects <==> k in old(db.objects)) && (k in db.objects ==> db.objects[k] == old(db.objects)[k])
      ensures forall e :: e != email ==>
        (e in db.users <==> e in old(db.users)) && (e in db.users ==> db.users[e] == old(db.users)[e])
    {
      var found := db.GetUserByEmailAsync(email);
      if found.None? {
        return ProfileNotFound("User not found");
      }
      var user := found.value;

      var profileStream: Option<Stream> := None;
      var bannerStream: Option<Stream> := None;
      var uniqueProfileFile: Option<string> := None;
      var uniqueBannerFile: Option<string> := None;

      if profileFile.Some? {
        uniqueProfileFile := Some(UniqueFileName(profileGuid, profileFile.value.FileName));
        var resized := normalize(profileFile.value.content);
        if resized.Err? {
          return ProfileServerError(INTERNAL_SERVER_ERROR, resized.error.Message());
        }
        profileStream := Some(Fresh(resized.value));
      }

      if bannerFile.Some? {
        uniqueBannerFile := Some(UniqueFileName(bannerGuid, bannerFile.value.FileName));
        var resized := normalize(bannerFile.value.content);
        if resized.Err? {
          return ProfileServerError(INTERNAL_SERVER_ERROR, resized.error.Message());
        }
        bannerStream := Some(Fresh(resized.value));
      }

      if profileFile.Some? && bannerFile.Some? {
        var profileResult, afterProfile := db.UploadUserImageAsync(
          Some(user), uniqueProfileFile.value, profileStream, true, false,
          profileFile.value.ContentType, profileIo, bannerIo, presign, now);
        if profileResult.Err? {
          return ProfileServerError(INTERNAL_SERVER_ERROR, profileResult.error.Message());
        }
        user := afterProfile.value;
        var bannerResult, afterBanner := db.UploadUserImageAsync(
          Some(user), uniqueBannerFile.value, bannerStream, false, true,
          bannerFile.value.ContentType, profileIo, bannerIo, presign, now);
        if bannerResult.Err? {
          return ProfileServerError(INTERNAL_SERVER_ERROR, bannerResult.error.Message());
        }
        user := afterBanner.value;
        return ProfileOk(Some(profileResult.value), Some(bannerResult.value), user);
      }

      if profileFile.Some? {
        var profileResult, afterProfile := db.UploadUserImageAsync(
          Some(user), uniqueProfileFile.value, profileStream, true, false,
          profileFile.value.ContentType, profileIo, bannerIo, presign, now);
        if profileResult.Err? {
          return ProfileServerError(INTERNAL_SERVER_ERROR, profileResult.error.Message());
        }
        user := afterProfile.value;
        return ProfileOk(Some(profileResult.value), None, user);
      }

      if bannerFile.Some? {
        var bannerResult, afterBanner := db.UploadUserImageAsync(
          Some(user), uniqueBannerFile.value, bannerStream, false, true,
          bannerFile.value.ContentType, profileIo, bannerIo, presign, now);
        if bannerResult.Err? {
          return ProfileServerError(INTERNAL_SERVER_ERROR, bannerResult.error.Message());
        }
        user := afterBanner.value;
        return ProfileOk(None, Some(bannerResult.value), user);
      }

      return ProfileBadRequest("No files uploaded");
    }
  }
}
