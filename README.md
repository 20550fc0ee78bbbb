# StorageWebAppBackend storage coordinator, in Dafny

This project models the core of StorageWebAppBackend, an ASP.NET Core backend
for a photo-storage web app. The backend keeps image files in an
S3-compatible bucket (Cloudflare R2). It keeps photo records and user
accounts in two Azure Cosmos DB containers.

The model covers:

- **`DbService`** (module `Storage`): a class over three in-memory stores.
  - `objects` is the bucket: sanitised key to bytes and content type.
  - `photos` is the photos container, keyed by (userId, id). userId is its partition key.
  - `users` is the users container, keyed by e-mail. E-mail is its partition key.

  Every point call to a remote service (put, probe, read, create, replace,
  upsert, delete) gets an explicit outcome parameter: a `PutReply` for a
  put, a `CallOutcome` for the rest. The two queries read the maps and take
  no outcome. The store's own answers come from the state: a 404 for a
  missing item, a 409 for a duplicate create.
  A stream is its bytes and its read position: the empty check looks at
  its whole length, and the copy before a put reads from the position to
  the end.
- **Key sanitisation** (module `KeyNaming`). Spaces become underscores, then
  the text goes through `Uri.EscapeDataString`: UTF-8, then the
  percent-encoding of RFC 3986 (section 2.3 unreserved set, section 2.1
  upper-case `%XX`, section 2.5 UTF-8). The round trip is proved against
  percent-decoding.
- **The controllers that decide over the stores**:
  - photo edit (`EditApi`);
  - profile and banner update (`UserApi`);
  - sign-up (`SignupApi`);
  - login (`LoginApi`).
- **Exception classification** of the error middleware (`ErrorHandling`).
- **The record shapes** under `Models/` (module `Models`).
- **Client-level sequences of calls** (`Scenarios`): upload then list,
  delete then look up, upload then probe, overwrite by colliding names, an
  empty upload, a create that fails after a successful put, and both image
  slots stored from one stream.

Guids, clock readings and presigned URLs are parameters. So are BCrypt, JWT
signing and image resizing.

Facts about the code that the model keeps:

- `DeletePhotoAsync` deletes the object first and the record second. A
  failure between the two steps leaves a record whose object is gone.
- The profile/banner path does no existence check. It writes the object
  and upserts the user whether or not the key is already in the bucket.
  Nothing makes it idempotent.
- `ErrorHandlingMiddleware` is never added to the request pipeline in
  `Program.cs`. `BuildErrorResponse` is modelled as the total mapping it
  defines.
- `UserController.UpdateUserProfile` looks the e-mail up exactly as given,
  without the lower-casing that sign-up and login apply.
- `UploadUserImageAsync` writes both slots from one stream. With both flags
  set, the second put finds the stream at its end and overwrites the shared
  key with an empty object. The controller never passes both flags, since
  it makes one call per file.

## Model

| member | source | states |
|---|---|---|
| Models.ToLower | StorageWebAppBackend/Controllers/SignupController.cs:31 | keeps the length, lower-cases each ASCII letter and nothing else, leaves no upper-case ASCII letter |
| Models.ToLowerIdempotent | StorageWebAppBackend/Controllers/LoginController.cs:35 | lower-casing twice is lower-casing once |
| Models.IsNullOrWhiteSpace | StorageWebAppBackend/Controllers/EditController.cs:24-39 | `string.IsNullOrWhiteSpace`: null, or every character is Unicode white space |
| Models.IsNullOrEmpty | StorageWebAppBackend/Controllers/SignupController.cs:27 | `string.IsNullOrEmpty`: null or the empty string |
| KeyNaming.ReplaceSpaces | StorageWebAppBackend/Services/DbService.cs:172 | same length; each space becomes `_` and every other character is kept |
| KeyNaming.Utf8Char | StorageWebAppBackend/Services/DbService.cs:172 | the UTF-8 of one character is one to four octets; the lead octet gives the count; the rest are continuation octets; a single octet exactly for ASCII |
| KeyNaming.Utf8 | StorageWebAppBackend/Services/DbService.cs:172 | the UTF-8 of a string has one to four octets per character |
| KeyNaming.Utf8Injective | StorageWebAppBackend/Services/DbService.cs:172 | two strings with the same UTF-8 encoding are equal |
| KeyNaming.Utf8Concat | StorageWebAppBackend/Services/DbService.cs:172 | UTF-8 encoding distributes over concatenation |
| KeyNaming.Utf8CharInjective | StorageWebAppBackend/Services/DbService.cs:172 | different characters have different UTF-8 encodings |
| KeyNaming.HexDigit | StorageWebAppBackend/Services/DbService.cs:172 | the digit written for 0..15 is an upper-case hexadecimal digit |
| KeyNaming.HexValue | StorageWebAppBackend/Services/DbService.cs:172 | an upper-case hexadecimal digit is worth 0..15 |
| KeyNaming.EscapeOctet | StorageWebAppBackend/Services/DbService.cs:172 | an octet stays itself if and only if it is an unreserved ASCII character; otherwise it is `%` and two upper-case hex digits worth the octet |
| KeyNaming.EscapeOctets | StorageWebAppBackend/Services/DbService.cs:172 | one or three characters per octet, each unreserved or `%` |
| KeyNaming.EscapeDataString | StorageWebAppBackend/Services/DbService.cs:172 | `Uri.EscapeDataString`: decodes back to the UTF-8 of its input; only unreserved characters and `%` |
| KeyNaming.SanitizeKey | StorageWebAppBackend/Services/DbService.cs:172 | the stored key, used again by the probe at line 326: well formed, decodes to the UTF-8 of the name with spaces replaced, only `A-Z a-z 0-9 - . _ ~` and `%XX`, no space |
| KeyNaming.PercentDecode | StorageWebAppBackend/Services/DbService.cs:172 | the inverse the round trip is proved against: what it accepts has only unreserved characters and `%`, one to three characters per octet |
| KeyNaming.DecodeEscapeOctets | StorageWebAppBackend/Services/DbService.cs:172 | percent-decoding the escape of any octet sequence gives the sequence back |
| KeyNaming.EscapeOctetsConcat | StorageWebAppBackend/Services/DbService.cs:172 | escaping distributes over concatenation |
| KeyNaming.SanitizeKeyCollision | StorageWebAppBackend/Services/DbService.cs:172 | two names give the same key if and only if they agree once spaces become underscores |
| KeyNaming.SpaceUnderscoreCollide | StorageWebAppBackend/Services/DbService.cs:172 | names that differ only by space against underscore give the same key |
| KeyNaming.SanitizeKeyConcat | StorageWebAppBackend/Services/DbService.cs:172 | sanitising distributes over concatenation |
| KeyNaming.SanitizeUnreserved | StorageWebAppBackend/Services/DbService.cs:172 | a name made only of unreserved characters is its own key |
| KeyNaming.UniqueFileNameKey | StorageWebAppBackend/Controllers/UserController.cs:45 | the key of `<guid>_<name>` is the guid, `_`, and the sanitised name |
| KeyNaming.UniqueFileNameKeysDiffer | StorageWebAppBackend/Controllers/UserController.cs:45-51 | two different guids give two different keys, whatever the file names |
| Storage.Stream.Drained | StorageWebAppBackend/Services/DbService.cs:174-175 | a stream copied to its end keeps its length and has nothing left to read |
| Storage.Fresh | StorageWebAppBackend/Services/ImageService.cs:32-33 | a stream at its start: its length is the byte count and a copy reads every byte |
| Storage.AfterUpload | StorageWebAppBackend/Services/DbService.cs:169-175 | the caller's stream after an upload: once it has passed the empty check, nothing is left to read and its length is kept; otherwise it is untouched; still uploadable exactly when it was |
| Storage.WithSlot | StorageWebAppBackend/Services/DbService.cs:134-147 | the user with one slot pointing at the new key; the other slot and every other field unchanged |
| Storage.GetPhotoUrl | StorageWebAppBackend/Services/DbService.cs:194-206 | the presigner's URL for the key and lifetime, or null when signing throws |
| Storage.ToUploadResult | StorageWebAppBackend/Services/DbService.cs:225-233 | the result shape copied field by field from a record, with the URL |
| Storage.FindUserByEmail | StorageWebAppBackend/Services/DbService.cs:293-308 | finds a user if and only if a stored user has exactly that e-mail; the user found is stored and has that e-mail |
| Storage.DbService.constructor | StorageWebAppBackend/Services/DbService.cs:25-48 | the service starts over the given stores, each document stored under its own key |
| Storage.DbService.UploadFileToR2Async | StorageWebAppBackend/Services/DbService.cs:167-192 | a null or empty stream is rejected before any write; otherwise the stream is read to its end, what it read is stored under the sanitised key, and the key is returned; a non-OK or throwing put writes nothing |
| Storage.DbService.GetKeyFromR2Async | StorageWebAppBackend/Services/DbService.cs:319-336 | probes the same sanitised key the upload writes; found if and only if the key is stored, with the stored length and content type; a 404 gives null, any other failure propagates |
| Storage.DbService.UploadPhotoAsync | StorageWebAppBackend/Services/DbService.cs:82-114 | the put runs first; when it fails nothing is written; when the create fails the object stays with no record; on success exactly one record with the new id, the userId, the sanitised key, the title defaulting to the file name and the desc to "Uploaded by user", echoed in the result |
| Storage.DbService.CreatePhotoItem | StorageWebAppBackend/Services/DbService.cs:103 | adds the record under its own (userId, id), or fails with 409 if one is there, or propagates a thrown error, changing nothing |
| Storage.DbService.GetUserPhotosAsync | StorageWebAppBackend/Services/DbService.cs:212-238 | exactly the records with the userId, each once and copied field by field with its URL; nothing else |
| Storage.DbService.GetPhotoByIdAsync | StorageWebAppBackend/Services/DbService.cs:244-258 | the record stored under (userId, id), or null if and only if none is; a thrown 404 is null, other errors propagate |
| Storage.DbService.UpdatePhotoAsync | StorageWebAppBackend/Services/DbService.cs:260-267 | replaces only the record under the photo's own (userId, id); a missing record is a 404 and changes nothing |
| Storage.DbService.DeletePhotoAsync | StorageWebAppBackend/Services/DbService.cs:273-287 | deletes the object first, then the record; a failure on the record leaves the object gone and the record there; on success neither remains and everything else is unchanged |
| Storage.DbService.GetUserByEmailAsync | StorageWebAppBackend/Services/DbService.cs:293-308 | the stored user with exactly that e-mail, or null if and only if there is none |
| Storage.DbService.CreateUserAsync | StorageWebAppBackend/Services/DbService.cs:310-314 | adds the user under its e-mail and returns it; a duplicate is a 409; a thrown error changes nothing |
| Storage.DbService.UpdateUserAsync | StorageWebAppBackend/Services/DbService.cs:315-318 | the upsert writes the user under its e-mail whether or not it was there |
| Storage.DbService.StoreSlot | StorageWebAppBackend/Services/DbService.cs:131-149 | one requested slot: put the object, point the slot at the new key, upsert the user; a failed put changes nothing; a failed upsert keeps the object |
| Storage.DbService.UploadUserImageAsync | StorageWebAppBackend/Services/DbService.cs:115-165 | a null user is rejected with nothing written; a requested slot gets the new sanitised key and the user is upserted; an unrequested slot reports the key the user has; a URL is non-null only if its key is; a failed put or upsert raises its exception, and the stores and user object are exactly as the steps before it left them; with both flags the key ends up empty; only the new key and the user's own document change |
| ErrorHandling.BuildErrorResponse | StorageWebAppBackend/Middleware/ErrorResponse.cs:98-171 | 400/401/404/409 with the exception's message for the four custom kinds; S3 and Cosmos keep their status code with fixed messages and their error codes as details; timeout is 408; every other kind, the App* types included, is 500 "INTERNAL_ERROR"; the trace id is copied; in Development the details describe the exception |
| ErrorHandling.CodeIdentifiesKind | StorageWebAppBackend/Middleware/ErrorResponse.cs:106-157 | each of the eight codes is produced by exactly one kind of exception |
| ErrorHandling.EnvironmentOnlyChangesDetails | StorageWebAppBackend/Middleware/ErrorResponse.cs:159-168 | the environment changes the details and nothing else |
| EditApi.EditedPhoto | StorageWebAppBackend/Controllers/EditController.cs:35-39 | identity fields, key, file name and date are kept; title and desc are replaced only by a non-blank value |
| EditApi.EditIsPartialAndIdempotent | StorageWebAppBackend/Controllers/EditController.cs:35-39 | supplying one field leaves the other; applying the same edit twice equals applying it once; a blank edit changes nothing |
| EditApi.EditController.UpdatePhoto | StorageWebAppBackend/Controllers/EditController.cs:19-44 | a blank user id, then blank title and desc, are BadRequest with no store access; a missing record is NotFound; a read or replace that throws surfaces its exception; on success the edited record is stored under the same key and returned; the store is otherwise unchanged |
| UserApi.SlotKey | StorageWebAppBackend/Controllers/UserController.cs:45-51 | the key of a supplied file is the Guid, `_`, and the sanitised file name |
| UserApi.UserController.UpdateUserProfile | StorageWebAppBackend/Controllers/UserController.cs:25-135 | an unknown e-mail is NotFound with nothing written; each file is stored under the sanitised `<guid>_<name>`; with both files the profile call comes first and the banner result carries the new profile key; the user holds the new keys; no file is BadRequest "No files uploaded"; a failed resize, put or upsert is 500 with the message of the first failure, a resize failing before any write; only the new keys and this user's document change |
| SignupApi.NewAccount | StorageWebAppBackend/Controllers/SignupController.cs:45-52 | the new user document: id, e-mail, name, hash and creation time, with no image keys |
| SignupApi.ViewOf | StorageWebAppBackend/Controllers/SignupController.cs:58-64 | the response fields: id, e-mail, name and creation time, without the hash |
| SignupApi.SignupController.SignUp | StorageWebAppBackend/Controllers/SignupController.cs:23-65 | an empty e-mail or password is BadRequest; an existing lower-cased e-mail is Conflict; a create that throws surfaces its exception; otherwise exactly one user is added, with the new id, the lower-cased e-mail, the name and the hash of the password; the response has no hash |
| LoginApi.Login | StorageWebAppBackend/Controllers/LoginController.cs:30-83 | an empty field is BadRequest; success if and only if the lower-cased e-mail is stored and the password verifies; an unknown user and a wrong password get the same message; the token has the e-mail and id claims and expires six hours later; the user view has no hash |
| LoginApi.LoginIgnoresEmailCase | StorageWebAppBackend/Controllers/LoginController.cs:35-38 | two spellings of an e-mail that lower-case alike get the same answer |
| LoginApi.SignupThenLogin | StorageWebAppBackend/Controllers/SignupController.cs:31-52 | an account made by sign-up logs in with the same password and any ASCII case of its e-mail, given that verification accepts a password against its own hash |
| Scenarios.UploadThenList | StorageWebAppBackend/Services/DbService.cs:82-114 | a successful upload appears in the owner's next listing under the new id and the sanitised key; the listing entry equals the upload result except for its URL, which the listing request signs again |
| Scenarios.DeleteThenLookup | StorageWebAppBackend/Services/DbService.cs:273-287 | after a successful delete the lookup returns null and the object is gone |
| Scenarios.UploadThenProbe | StorageWebAppBackend/Services/DbService.cs:319-336 | the probe finds the object an upload of the same name wrote, with its length and content type |
| Scenarios.SpaceAndUnderscoreOverwrite | StorageWebAppBackend/Services/DbService.cs:172-186 | names that differ only by space against underscore share a key, and the second put overwrites the first |
| Scenarios.EmptyUploadWritesNothing | StorageWebAppBackend/Services/DbService.cs:169-170 | a zero-byte upload fails with "Empty file stream" and changes neither store |
| Scenarios.FailedCreateOrphansObject | StorageWebAppBackend/Services/DbService.cs:90-103 | a create that fails after a good put leaves the object with no record |
| Scenarios.BothSlotsFromOneStream | StorageWebAppBackend/Services/DbService.cs:131-148 | asking for both slots in one call points both at one key that ends up holding an empty object |

## Left out

- Cloud SDK wire behaviour (S3/R2 and Cosmos clients, retries, headers) is not modelled. Each call is a map update plus an outcome parameter.
- A put whose reply is not 200 counts as "not stored", although the bucket might have kept the object.
- Cosmos query paging is not modelled, and neither are faults raised by a query. `GetUserPhotosAsync` and `GetUserByEmailAsync` read the map directly. The listing is proved in no particular order.
- `GetPhotoUrl` is a `Presigner` function parameter that may return null. The signing crypto and the clock are not modelled.
- Configuration and startup (`LoadCosmosConfig`, `LoadR2Config`, `R2Config.cs`, `Program.cs`) are left out: they are environment variables and dependency injection.
- `ImageService.ResizeImageAsync` is a `Normalizer` parameter that returns the re-encoded bytes or an exception. It uses ImageSharp resampling and floating point.
- E-mail (`EmailService.cs`, `EmailController.cs`, `FeedbackController.cs`, `Models/FeedbackRequest.cs`) is left out. It is HTTP/SMTP delivery and HTML templates.
- BCrypt hashing and verification, and JWT signing, are uninterpreted function parameters.
- Async/await and concurrent requests are not modelled. Each call runs to completion before the next starts.
- `HandleExceptionAsync` is not modelled: it writes and serialises the response and logs. Console logging is not modelled either.
- Streams keep only their bytes and read position; `null` is `None`. Seeking and disposal are not modelled.
- Strings are sequences of Unicode scalar values. C# strings may hold a lone UTF-16 surrogate, which `Uri.EscapeDataString` handles on its own terms; such file names are not modelled.
- Models.ToLower: only ASCII letters are lower-cased, not the culture-sensitive mapping of `string.ToLower` for other letters.
- Storage.DbService.CreateUserAsync: the container holds one document per e-mail in the model. Cosmos would accept a second document with a different id in the same partition. The model reports that case as a 409, and sign-up never reaches it because it checks first.
- Storage.DbService.UploadUserImageAsync: one `now` stands for `DateTime.UtcNow` across the whole call. The `title` and `desc` parameters are not modelled because the method never reads them.
- UserApi.UserController.UpdateUserProfile: after a put or upsert fails part-way, the contract states the 500 and its message, and that only the new keys and this user's document can have changed. It does not state those entries exactly.
- `DeleteController.cs` is not modelled as its own operation. Its non-blank guard is the precondition of `DeletePhotoAsync`.
- `ImgaesController.cs` is a guard and a count message, and `pingController.cs` does nothing. Both are left out.
- `UploadController.cs` is left out because it does not type-check: it assigns the `PhotoUploadResult` of `UploadPhotoAsync` to a `string`, so nothing past its guards can be stated.
- `Models/Photos.cs` is left out because nothing uses it.
- `Middleware/CustomExceptions.cs` declares types only. Its exceptions appear as the unmatched kinds of `BuildErrorResponse`.
