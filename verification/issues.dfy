/** The issue record, its two enumerations, the coordinate validators that
    guard its construction, and the errors the endpoints raise. */
module Issues {

  import opened Wrappers
  import FileNames

  datatype Category = Pothole | Streetlight | Garbage | Water | Others

  /** The four statuses, in the order the lifecycle intends; nothing in the
      service enforces that order. */
  datatype Status = Reported | Acknowledged | InProgress | Resolved

  /** A point in time, as microseconds since the epoch (the resolution of
      Python's `datetime`). */
  type Timestamp = int

  datatype Issue = Issue(
    id: string,
    category: Category,
    description: string,
    latitude: real,
    longitude: real,
    photoFilename: Option<string>,
    audioFilename: Option<string>,
    videoFilename: Option<string>,
    aiAnalysis: Option<string>,
    status: Status,
    createdAt: Timestamp,
    updatedAt: Timestamp,
    userName: string,
    userEmail: string,
    userAvatar: Option<string>)

  /** Everything that stops a request, with the HTTP status it ends in. */
  datatype Error =
    | InvalidAttachment(kind: FileNames.MediaKind)  // rejected extension
    | MalformedAvatarName                           // dot-less avatar name: the split raises
    | UploadFailed(kind: FileNames.MediaKind)       // writing the file failed
    | InvalidCoordinates                            // a validator refused the record
    | NotFound                                      // no issue under that id
  {
    function HttpStatus(): int
    {
      match this
      case InvalidAttachment(_) => 400
      case NotFound => 404
      // an IndexError and a pydantic ValidationError are not caught by the
      // handler, so they surface as internal server errors
      case MalformedAvatarName => 500
      case UploadFailed(_) => 500
      case InvalidCoordinates => 500
    }
  }

  const MaxLatitude: real := 90.0
  const MaxLongitude: real := 180.0

  predicate LatitudeValid(latitude: real)
  {
    -MaxLatitude <= latitude <= MaxLatitude
  }

  predicate LongitudeValid(longitude: real)
  {
    -MaxLongitude <= longitude <= MaxLongitude
  }

  /** The `Issue(...)` constructor call: the record is built only when both
      validators accept, and then holds exactly the fields it was given. */
  function NewIssue(
    id: string, category: Category, description: string,
    latitude: real, longitude: real,
    photoFilename: Option<string>, audioFilename: Option<string>,
    videoFilename: Option<string>, aiAnalysis: Option<string>,
    status: Status, createdAt: Timestamp, updatedAt: Timestamp,
    userName: string, userEmail: string, userAvatar: Option<string>): (r: Result<Issue, Error>)
    ensures r.Success? <==> -90.0 <= latitude <= 90.0 && -180.0 <= longitude <= 180.0
    ensures r.Failure? ==> r.error == InvalidCoordinates
    ensures r.Success? ==>
      && r.value.id == id && r.value.category == category
      && r.value.description == description
      && r.value.latitude == latitude && r.value.longitude == longitude
      && r.value.photoFilename == photoFilename && r.value.audioFilename == audioFilename
      && r.value.videoFilename == videoFilename && r.value.aiAnalysis == aiAnalysis
      && r.value.status == status
      && r.value.createdAt == createdAt && r.value.updatedAt == updatedAt
      && r.value.userName == userName && r.value.userEmail == userEmail
      && r.value.userAvatar == userAvatar
  {
    if LatitudeValid(latitude) && LongitudeValid(longitude) then
      Success(Issue(id, category, description, latitude, longitude,
                    photoFilename, audioFilename, videoFilename, aiAnalysis,
                    status, createdAt, updatedAt, userName, userEmail, userAvatar))
    else
      Failure(InvalidCoordinates)
  }

  /** Both bounds are inclusive: the poles and the antimeridian are accepted,
      anything past them is refused. */
  lemma CoordinateBoundsInclusive()
    ensures LatitudeValid(90.0) && LatitudeValid(-90.0)
    ensures LongitudeValid(180.0) && LongitudeValid(-180.0)
    ensures !LatitudeValid(90.000001) && !LatitudeValid(-90.000001)
    ensures !LongitudeValid(180.000001) && !LongitudeValid(-180.000001)
  {
  }

  /** The record a well-behaved store holds: coordinates the validators
      accepted. */
  predicate ValidIssue(issue: Issue)
  {
    LatitudeValid(issue.latitude) && LongitudeValid(issue.longitude)
  }

  /** A record whose last update is no earlier than its creation. */
  predicate WellTimed(issue: Issue)
  {
    issue.createdAt <= issue.updatedAt
  }

  /** `b` differs from `a` at most in `status` and `updatedAt`. */
  predicate SameButStatusAndTime(a: Issue, b: Issue)
  {
    && a.id == b.id && a.category == b.category && a.description == b.description
    && a.latitude == b.latitude && a.longitude == b.longitude
    && a.photoFilename == b.photoFilename && a.audioFilename == b.audioFilename
    && a.videoFilename == b.videoFilename && a.aiAnalysis == b.aiAnalysis
    && a.createdAt == b.createdAt
    && a.userName == b.userName && a.userEmail == b.userEmail
    && a.userAvatar == b.userAvatar
  }
}
