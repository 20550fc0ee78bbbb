/** Record shapes of the storage backend (the files under Models), the exception kinds
    that flow through it, and the small helpers every layer shares:
    optional values, results, and the .NET string tests the controllers use. */
module Models {

  /** An octet, as written to the object store and produced by UTF-8. */
  type byte = b: int | 0 <= b < 256

  /** A point in time, in seconds; `DateTime.UtcNow` is always a parameter. */
  type Instant = int

  /** A nullable reference: `None` stands for C#'s `null`. */
  datatype Option<+T> = None | Some(value: T) {
    /** C#'s `x ?? default`. */
    function GetOr(default: T): T {
      if Some? then value else default
    }
  }

  /** The outcome of an operation that may throw. */
  datatype Result<+T> = Ok(value: T) | Err(error: Exception)

  /** HTTP status codes the backend produces. */
  const OK_STATUS := 200
  const BAD_REQUEST := 400
  const UNAUTHORIZED := 401
  const NOT_FOUND := 404
  const REQUEST_TIMEOUT := 408
  const CONFLICT := 409
  const INTERNAL_SERVER_ERROR := 500

  /** The exception kinds the code raises, catches or classifies. */
  datatype Exception =
    | ValidationException(msg: string)
    | UnauthorizedException(msg: string)
    | NotFoundException(msg: string)
    | ConflictException(msg: string)
    | AmazonS3Exception(statusCode: int, errorCode: string, msg: string)
    | CosmosException(statusCode: int, subStatusCode: int, msg: string)
    | TimeoutException(msg: string)
    | AppValidationException(msg: string)
    | AppNotFoundException(msg: string)
    | AppUnauthorizedException(msg: string)
    | AppConflictException(msg: string)
    | ArgumentNullException(paramName: string)
    /** `new Exception(msg)`, as thrown by the upload path. */
    | GeneralException(msg: string)
  {
    /** `Exception.Message`. */
    function Message(): string {
      match this
      case ArgumentNullException(p) => "Value cannot be null. (Parameter '" + p + "')"
      case _ => this.msg
    }

    /** `exception.GetType().Name`. */
    function TypeName(): string {
      match this
      case ValidationException(_) => "ValidationException"
      case UnauthorizedException(_) => "UnauthorizedException"
      case NotFoundException(_) => "NotFoundException"
      case ConflictException(_) => "ConflictException"
      case AmazonS3Exception(_, _, _) => "AmazonS3Exception"
      case CosmosException(_, _, _) => "CosmosException"
      case TimeoutException(_) => "TimeoutException"
      case AppValidationException(_) => "AppValidationException"
      case AppNotFoundException(_) => "AppNotFoundException"
      case AppUnauthorizedException(_) => "AppUnauthorizedException"
      case AppConflictException(_) => "AppConflictException"
      case ArgumentNullException(_) => "ArgumentNullException"
      case GeneralException(_) => "Exception"
    }
  }

  /** Models/PhotoMetadata.cs: one document of the photos container. */
  datatype PhotoMetadata = PhotoMetadata(
    id: string,
    userId: string,
    photoKey: string,
    fileName: string,
    title: string,
    desc: string,
    dateCreated: Instant)

  /** Models/PhotoUploadResult.cs: what upload and listing hand back. */
  datatype PhotoUploadResult = PhotoUploadResult(
    id: string,
    photoKey: string,
    url: Option<string>,
    title: string,
    desc: string,
    dateCreated: Instant)

  /** Models/Users.cs: one document of the users container. */
  datatype Users = Users(
    id: string,
    email: string,
    name: Option<string>,
    passwordHash: string,
    dateCreated: string,
    Banner: Option<string>,
    ProfileImage: Option<string>)

  /** Models/UserImageUploadResult.cs. */
  datatype UserImageUploadResult = UserImageUploadResult(
    ProfileKey: Option<string>,
    ProfileUrl: Option<string>,
    BannerKey: Option<string>,
    BannerUrl: Option<string>,
    DateCreated: Instant)

  /** `char.IsWhiteSpace`: the Unicode White_Space characters. */
  predicate IsWhiteSpace(c: char) {
    || ('\U{0009}' <= c <= '\U{000D}') || c == ' ' || c == '\U{0085}' || c == '\U{00A0}'
    || c == '\U{1680}' || ('\U{2000}' <= c <= '\U{200A}') || c == '\U{2028}' || c == '\U{2029}'
    || c == '\U{202F}' || c == '\U{205F}' || c == '\U{3000}'
  }

  /** `string.IsNullOrWhiteSpace`. */
  predicate IsNullOrWhiteSpace(s: Option<string>) {
    s.None? || forall i :: 0 <= i < |s.value| ==> IsWhiteSpace(s.value[i])
  }

  /** `string.IsNullOrEmpty`. */
  predicate IsNullOrEmpty(s: Option<string>) {
    s.None? || s.value == ""
  }

  /** `char.ToLower` on ASCII letters; every other character is kept. */
  function LowerChar(c: char): char {
    if 'A' <= c <= 'Z' then (c as int + 32) as char else c
  }

  /** `string.ToLower`, with the ASCII case mapping of LowerChar. */
  function ToLower(s: string): (r: string)
    ensures |r| == |s|
    ensures forall i :: 0 <= i < |s| ==> r[i] == LowerChar(s[i])
    ensures forall i :: 0 <= i < |r| ==> !('A' <= r[i] <= 'Z')
  {
    if s == [] then [] else [LowerChar(s[0])] + ToLower(s[1..])
  }

  /** Lower-casing twice is lower-casing once. */
  lemma ToLowerIdempotent(s: string)
    ensures ToLower(ToLower(s)) == ToLower(s)
  {
    var t := ToLower(s);
    assert forall i :: 0 <= i < |t| ==> LowerChar(t[i]) == t[i];
  }
}
