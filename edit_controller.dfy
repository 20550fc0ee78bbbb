/** Controllers/EditController.cs: the partial update of a photo's title
    and description. */
module EditApi {
  import opened Models
  import opened Storage

  /** The request body. */
  datatype PhotoUpdateDto = PhotoUpdateDto(UserId: Option<string>, Title: Option<string>, Desc: Option<string>)

  /** The action results the endpoint can produce; Failed is an exception
      that leaves the action unhandled. */
  datatype EditResult =
    | EditOk(photo: PhotoMetadata)
    | EditBadRequest(message: string)
    | EditNotFound(message: string)
    | EditFailed(ex: Exception)

  /** The record after the partial update: a field is replaced only by a
      supplied, non-blank value, and nothing else changes. */
  function EditedPhoto(p: PhotoMetadata, title: Option<string>, desc: Option<string>): (r: PhotoMetadata)
    ensures r.id == p.id && r.userId == p.userId && r.photoKey == p.photoKey
    ensures r.fileName == p.fileName && r.dateCreated == p.dateCreated
    ensures r.title == (if IsNullOrWhiteSpace(title) then p.title else title.value)
    ensures r.desc == (if IsNullOrWhiteSpace(desc) then p.desc else desc.value)
  {
    var afterTitle := if IsNullOrWhiteSpace(title) then p else p.(title := title.value);
    if IsNullOrWhiteSpace(desc) then afterTitle else afterTitle.(desc := desc.value)
  }

  /** Supplying only a title leaves the description as it was, and the
      other way round; supplying the same edit twice changes nothing more. */
  lemma EditIsPartialAndIdempotent(p: PhotoMetadata, title: Option<string>, desc: Option<string>)
    ensures IsNullOrWhiteSpace(desc) ==> EditedPhoto(p, title, desc).desc == p.desc
    ensures IsNullOrWhiteSpace(title) ==> EditedPhoto(p, title, desc).title == p.title
    ensures EditedPhoto(EditedPhoto(p, title, desc), title, desc) == EditedPhoto(p, title, desc)
    ensures IsNullOrWhiteSpace(title) && IsNullOrWhiteSpace(desc) ==> EditedPhoto(p, title, desc) == p
  {
  }

  class EditController {
    const db: DbService

    constructor (db: DbService)
      ensures this.db == db
    {
      this.db := db;
    }

    /** `PUT api/edit/{id}`: the user id is required, then at least one of
        title and description, then the record must exist; the edited record
        replaces it under the same (userId, id) and is returned. */
    method UpdatePhoto(id: string, dto: PhotoUpdateDto, read: CallOutcome, replace: CallOutcome)
      returns (r: EditResult)
      requires db.Valid()
      modifies db`photos
      ensures db.Valid()
      ensures IsNullOrWhiteSpace(dto.UserId) ==>
        r == EditBadRequest("UserId is required.") && db.photos == old(db.photos)
      ensures !IsNullOrWhiteSpace(dto.UserId) && IsNullOrWhiteSpace(dto.Title) && IsNullOrWhiteSpace(dto.Desc) ==>
        r == EditBadRequest("Either title or desc must be provided.") && db.photos == old(db.photos)
      ensures !IsNullOrWhiteSpace(dto.UserId) && (!IsNullOrWhiteSpace(dto.Title) || !IsNullOrWhiteSpace(dto.Desc))
              && read == Completes && (dto.UserId.value, id) !in old(db.photos) ==>
        r == EditNotFound("Photo not found.") && db.photos == old(db.photos)
      // a failing read or replace surfaces its exception; a read that throws a 404 is "not found"
      ensures !IsNullOrWhiteSpace(dto.UserId) && (!IsNullOrWhiteSpace(dto.Title) || !IsNullOrWhiteSpace(dto.Desc))
              && read.Throws? ==>
        r == (if IsCosmosNotFound(read.ex) then EditNotFound("Photo not found.") else EditFailed(read.ex))
      ensures !IsNullOrWhiteSpace(dto.UserId) && (!IsNullOrWhiteSpace(dto.Title) || !IsNullOrWhiteSpace(dto.Desc))
              && read == Completes && (dto.UserId.value, id) in old(db.photos) && replace.Throws? ==>
        r == EditFailed(replace.ex)
      ensures r.EditOk? <==>
        && !IsNullOrWhiteSpace(dto.UserId) && (!IsNullOrWhiteSpace(dto.Title) || !IsNullOrWhiteSpace(dto.Desc))
        && read == Completes && (dto.UserId.value, id) in old(db.photos) && replace == Completes
      ensures r.EditOk? ==>
        var key := (dto.UserId.value, id);
        && r.photo == EditedPhoto(old(db.photos)[key], dto.Title, dto.Desc)
        && db.photos == old(db.photos)[key := r.photo]
        && db.photos[key] == r.photo
      ensures !r.EditOk? ==> db.photos == old(db.photos)
    {
      if IsNullOrWhiteSpace(dto.UserId) {
        return EditBadRequest("UserId is required.");
      }
      if IsNullOrWhiteSpace(dto.Title) && IsNullOrWhiteSpace(dto.Desc) {
        return EditBadRequest("Either title or desc must be provided.");
      }
      var found := db.GetPhotoByIdAsync(id, dto.UserId.value, read);
      if found.Err? {
        return EditFailed(found.error);
      }
      if found.value.None? {
        return EditNotFound("Photo not found.");
      }
      var photo := found.value.value;
      if !IsNullOrWhiteSpace(dto.Title) {
        photo := photo.(title := dto.Title.value);
      }
      if !IsNullOrWhiteSpace(dto.Desc) {
        photo := photo.(desc := dto.Desc.value);
      }
      var replaced := db.UpdatePhotoAsync(photo, replace);
      if replaced.Err? {
        return EditFailed(replaced.error);
      }
      return EditOk(photo);
    }
  }
}
