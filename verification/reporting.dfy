/** Report submission (`POST /issues`): the avatar, photo, audio and video
    uploads are checked and written one after the other, then the record is
    built and put into the store. The fresh tokens, the clock and the
    outcome of each file write are inputs. */
module Reporting {

  import opened Wrappers
  import opened FileNames
  import opened Issues
  import opened IssueStore

  /** The verdict of the photo analysis stub, the same for every photo. */
  const AiVerdict: string := "AI: Detected potential issue; please verify"

  /** The URL prefix under which the upload directory is served. */
  const UploadUrlPath: string := "/uploads"

  /** The typed form fields of one submission; an upload is represented by
      the file name its client declared, its bytes play no part. */
  datatype Submission = Submission(
    category: Category,
    description: string,
    latitude: real,
    longitude: real,
    userName: string,
    userEmail: string,
    userAvatar: Option<string>,
    avatarFile: Option<string>,
    photo: Option<string>,
    audio: Option<string>,
    video: Option<string>)

  /** The values of the five `uuid4()` calls, one per upload kind and one
      for the issue id. */
  datatype Tokens = Tokens(avatar: string, photo: string, audio: string, video: string, issue: string)

  /** What the environment supplies: the tokens, the instant `utcnow()`
      returns, and the upload kinds whose file write fails. */
  datatype Env = Env(tokens: Tokens, now: Timestamp, failedWrites: set<MediaKind>)

  /** The store after the request, the names of the files written to the
      upload directory, and the issue or the error answered. */
  datatype Submitted = Submitted(store: Store, saved: seq<string>, result: Result<Issue, Error>)

  function Token(tokens: Tokens, kind: MediaKind): string
  {
    match kind
    case Avatar => tokens.avatar
    case Photo => tokens.photo
    case Audio => tokens.audio
    case Video => tokens.video
  }

  /** The list holding the stored name, if any. */
  function Names(stored: Option<string>): seq<string>
  {
    if stored.Some? then [stored.value] else []
  }

  /** An upload that is absent, or has an accepted name and a write that
      succeeds. */
  predicate AttachmentAccepted(kind: MediaKind, upload: Option<string>, failedWrites: set<MediaKind>)
  {
    upload.Some? ==> AllowedFile(upload.value, AllowedExtensions(kind)) && kind !in failedWrites
  }

  /** The photo, audio or video branch: an absent upload stores nothing; a
      present one is refused unless `allowed_file` accepts it, then fails if
      its write fails, and otherwise is stored as
      `<kind>_<token>.<lower-cased extension>`. */
  function SaveAttachment(kind: MediaKind, upload: Option<string>, env: Env): (r: Result<Option<string>, Error>)
    ensures r.Success? <==> AttachmentAccepted(kind, upload, env.failedWrites)
    ensures r.Success? ==> (r.value.Some? <==> upload.Some?)
    ensures r.Success? && upload.Some? ==>
              '.' in upload.value && r.value == Some(StorageName(kind, Token(env.tokens, kind), upload.value))
    ensures upload.Some? && !AllowedFile(upload.value, AllowedExtensions(kind)) ==>
              r == Failure(InvalidAttachment(kind))
    ensures upload.Some? && AllowedFile(upload.value, AllowedExtensions(kind)) && kind in env.failedWrites ==>
              r == Failure(UploadFailed(kind))
    ensures r.Failure? ==> r.error == InvalidAttachment(kind) || r.error == UploadFailed(kind)
  {
    match upload
    case None => Success(None)
    case Some(filename) =>
      if !AllowedFile(filename, AllowedExtensions(kind)) then
        Failure(InvalidAttachment(kind))
      else if kind in env.failedWrites then
        Failure(UploadFailed(kind))
      else
        Success(Some(StorageName(kind, Token(env.tokens, kind), filename)))
  }

  /** A stored upload keeps its extension, lower-cased, and so passes the
      allow-list its upload passed. */
  lemma SavedNameKeepsExtension(kind: MediaKind, upload: Option<string>, env: Env)
    requires SaveAttachment(kind, upload, env).Success? && upload.Some?
    ensures var name := SaveAttachment(kind, upload, env).value.value;
      && '.' in upload.value && '.' in name
      && Extension(name) == Lower(Extension(upload.value))
      && AllowedFile(name, AllowedExtensions(kind))
  {
    StorageNameKeepsExtension(kind, Token(env.tokens, kind), upload.value, AllowedExtensions(kind));
  }

  /** The avatar branch: the extension is split off with no dot guard, so a
      dot-less name is an internal error rather than a refusal. */
  function SaveAvatar(upload: Option<string>, env: Env): (r: Result<Option<string>, Error>)
    ensures upload.None? ==> r == Success(None)
    ensures upload.Some? && '.' !in upload.value ==> r == Failure(MalformedAvatarName)
    ensures upload.Some? && '.' in upload.value ==> r == SaveAttachment(Avatar, upload, env)
  {
    match upload
    case None => Success(None)
    case Some(filename) =>
      match AvatarExtension(filename)
      case None => Failure(MalformedAvatarName)
      case Some(ext) =>
        AvatarCheckAgreesWithAllowedFile(filename);
        if ext !in ImageExtensions then Failure(InvalidAttachment(Avatar))
        else if Avatar in env.failedWrites then Failure(UploadFailed(Avatar))
        else Success(Some(StorageName(Avatar, env.tokens.avatar, filename)))
  }

  /** The avatar the record shows: the URL of an uploaded avatar file wins,
      then a non-empty declared avatar, else none. */
  function AvatarUrl(uploaded: Option<string>, declared: Option<string>): Option<string>
  {
    if uploaded.Some? then Some(UploadUrlPath + "/" + uploaded.value)
    else if declared.Some? && declared.value != "" then declared
    else None
  }

  /** The stored names of the four uploads, each absent when its upload
      was not supplied. */
  datatype Uploads = Uploads(avatar: Option<string>, photo: Option<string>, audio: Option<string>, video: Option<string>)

  /** The files written by the upload steps, and the stored names or the
      error of the first step that failed. */
  datatype UploadOutcome = UploadOutcome(saved: seq<string>, result: Result<Uploads, Error>)

  /** Every upload supplied has a name the endpoint accepts, and its write
      succeeds. */
  predicate UploadsAcceptable(sub: Submission, failedWrites: set<MediaKind>)
  {
    && AttachmentAccepted(Avatar, sub.avatarFile, failedWrites)
    && AttachmentAccepted(Photo, sub.photo, failedWrites)
    && AttachmentAccepted(Audio, sub.audio, failedWrites)
    && AttachmentAccepted(Video, sub.video, failedWrites)
  }

  /** Every condition under which the endpoint answers with an issue, stated
      together rather than in order. */
  predicate Acceptable(sub: Submission, failedWrites: set<MediaKind>)
  {
    && UploadsAcceptable(sub, failedWrites)
    && LatitudeValid(sub.latitude)
    && LongitudeValid(sub.longitude)
  }

  /** The four upload branches in source order: the first failure stops
      the submission with its error, and the files written before it stay
      written. */
  function SaveUploads(sub: Submission, env: Env): (out: UploadOutcome)
    ensures var avatar := SaveAvatar(sub.avatarFile, env);
      avatar.Failure? ==> out == UploadOutcome([], Failure(avatar.error))
    ensures var avatar, photo := SaveAvatar(sub.avatarFile, env), SaveAttachment(Photo, sub.photo, env);
      avatar.Success? && photo.Failure? ==>
        out == UploadOutcome(Names(avatar.value), Failure(photo.error))
    ensures var avatar, photo, audio :=
        SaveAvatar(sub.avatarFile, env), SaveAttachment(Photo, sub.photo, env), SaveAttachment(Audio, sub.audio, env);
      avatar.Success? && photo.Success? && audio.Failure? ==>
        out == UploadOutcome(Names(avatar.value) + Names(photo.value), Failure(audio.error))
    ensures var avatar, photo, audio, video :=
        SaveAvatar(sub.avatarFile, env), SaveAttachment(Photo, sub.photo, env),
        SaveAttachment(Audio, sub.audio, env), SaveAttachment(Video, sub.video, env);
      avatar.Success? && photo.Success? && audio.Success? && video.Failure? ==>
        out == UploadOutcome(Names(avatar.value) + Names(photo.value) + Names(audio.value), Failure(video.error))
    ensures out.result.Success? <==> UploadsAcceptable(sub, env.failedWrites)
    ensures out.result.Success? ==>
      && out.result.value == Uploads(SaveAvatar(sub.avatarFile, env).value,
                                     SaveAttachment(Photo, sub.photo, env).value,
                                     SaveAttachment(Audio, sub.audio, env).value,
                                     SaveAttachment(Video, sub.video, env).value)
      && (out.result.value.avatar.Some? <==> sub.avatarFile.Some?)
      && (out.result.value.photo.Some? <==> sub.photo.Some?)
      && (out.result.value.audio.Some? <==> sub.audio.Some?)
      && (out.result.value.video.Some? <==> sub.video.Some?)
      && out.saved == Names(out.result.value.avatar) + Names(out.result.value.photo)
                      + Names(out.result.value.audio) + Names(out.result.value.video)
  {
    var avatar := SaveAvatar(sub.avatarFile, env);
    if avatar.Failure? then UploadOutcome([], Failure(avatar.error))
    else
      var photo := SaveAttachment(Photo, sub.photo, env);
      if photo.Failure? then UploadOutcome(Names(avatar.value), Failure(photo.error))
      else
        var audio := SaveAttachment(Audio, sub.audio, env);
        var beforeAudio := Names(avatar.value) + Names(photo.value);
        if audio.Failure? then UploadOutcome(beforeAudio, Failure(audio.error))
        else
          var video := SaveAttachment(Video, sub.video, env);
          var beforeVideo := beforeAudio + Names(audio.value);
          if video.Failure? then UploadOutcome(beforeVideo, Failure(video.error))
          else
            UploadOutcome(beforeVideo + Names(video.value),
                          Success(Uploads(avatar.value, photo.value, audio.value, video.value)))
  }

  /** The record an accepted submission stores: the fresh id, status
      `reported`, both timestamps at the submission instant, a stored name
      exactly for each upload supplied, the analysis exactly when a photo
      was supplied, and the submitted fields as given. */
  predicate FreshReport(issue: Issue, sub: Submission, env: Env)
  {
    && issue.id == env.tokens.issue
    && issue.status == Issues.Reported
    && issue.createdAt == env.now && issue.updatedAt == env.now
    && (issue.photoFilename.Some? <==> sub.photo.Some?)
    && (issue.audioFilename.Some? <==> sub.audio.Some?)
    && (issue.videoFilename.Some? <==> sub.video.Some?)
    && (issue.aiAnalysis.Some? <==> sub.photo.Some?)
    && (issue.aiAnalysis.Some? ==> issue.aiAnalysis.value == AiVerdict)
    && issue.category == sub.category && issue.description == sub.description
    && issue.latitude == sub.latitude && issue.longitude == sub.longitude
    && issue.userName == sub.userName && issue.userEmail == sub.userEmail
  }

  /** `report_issue`: the uploads, then the record, then the single write
      to the store. */
  function ReportIssue(store: Store, sub: Submission, env: Env): (out: Submitted)
    ensures out.result.Success? <==> Acceptable(sub, env.failedWrites)
    ensures out.saved == SaveUploads(sub, env).saved
    ensures !UploadsAcceptable(sub, env.failedWrites) ==>
              out.result.Failure? && out.result.error == SaveUploads(sub, env).result.error
    ensures UploadsAcceptable(sub, env.failedWrites) && !(-90.0 <= sub.latitude <= 90.0 && -180.0 <= sub.longitude <= 180.0) ==>
              out.result == Failure(InvalidCoordinates)
    ensures out.result.Failure? ==> out.store == store
    ensures out.result.Success? ==> out.store == Put(store, out.result.value)
    ensures out.result.Success? ==> FreshReport(out.result.value, sub, env)
  {
    var uploads := SaveUploads(sub, env);
    match uploads.result
    case Failure(e) => Submitted(store, uploads.saved, Failure(e))
    case Success(stored) =>
      var ai := if stored.photo.Some? then Some(AiVerdict) else None;
      var built := NewIssue(
        env.tokens.issue, sub.category, sub.description, sub.latitude, sub.longitude,
        stored.photo, stored.audio, stored.video, ai,
        Issues.Reported, env.now, env.now,
        sub.userName, sub.userEmail, AvatarUrl(stored.avatar, sub.userAvatar));
      match built
      case Failure(e) => Submitted(store, uploads.saved, Failure(e))
      case Success(issue) => Submitted(Put(store, issue), uploads.saved, Success(issue))
  }

  /** A successful submission stores the names and the avatar URL its
      steps computed. */
  lemma ReportedParts(store: Store, sub: Submission, env: Env)
    requires Acceptable(sub, env.failedWrites)
    ensures SaveAvatar(sub.avatarFile, env).Success?
    ensures SaveAttachment(Photo, sub.photo, env).Success?
    ensures SaveAttachment(Audio, sub.audio, env).Success?
    ensures SaveAttachment(Video, sub.video, env).Success?
    ensures var issue := ReportIssue(store, sub, env).result.value;
      && issue.photoFilename == SaveAttachment(Photo, sub.photo, env).value
      && issue.audioFilename == SaveAttachment(Audio, sub.audio, env).value
      && issue.videoFilename == SaveAttachment(Video, sub.video, env).value
      && issue.userAvatar == AvatarUrl(SaveAvatar(sub.avatarFile, env).value, sub.userAvatar)
  {
  }

  /** Only unfolds `StorageName` with the kind's prefix written out, as a
      step of the proofs of the `Reported…Name` lemmas below. */
  lemma StoredNameShape(kind: MediaKind, token: string, name: string)
    requires '.' in name
    ensures StorageName(kind, token, name) ==
      (match kind
       case Photo => "photo_" case Audio => "audio_" case Video => "video_" case Avatar => "avatar_")
      + token + "." + Lower(Extension(name))
  {
  }

  /** The stored photo name is `photo_<token>.<extension>`, the extension
      being the upload's lower-cased, and it passes the image allow-list. */
  lemma ReportedPhotoName(store: Store, sub: Submission, env: Env)
    requires Acceptable(sub, env.failedWrites)
    requires sub.photo.Some?
    ensures '.' in sub.photo.value
    ensures var issue := ReportIssue(store, sub, env).result.value;
      && issue.photoFilename == Some("photo_" + env.tokens.photo + "." + Lower(Extension(sub.photo.value)))
      && AllowedFile(issue.photoFilename.value, ImageExtensions)
  {
    ReportedParts(store, sub, env);
    SavedNameKeepsExtension(Photo, sub.photo, env);
    StoredNameShape(Photo, env.tokens.photo, sub.photo.value);
  }

  /** The stored audio name is `audio_<token>.<extension>`, with the
      audio token and the upload's lower-cased extension. */
  lemma ReportedAudioName(store: Store, sub: Submission, env: Env)
    requires Acceptable(sub, env.failedWrites)
    requires sub.audio.Some?
    ensures '.' in sub.audio.value
    ensures ReportIssue(store, sub, env).result.value.audioFilename
         == Some("audio_" + env.tokens.audio + "." + Lower(Extension(sub.audio.value)))
  {
    ReportedParts(store, sub, env);
    assert SaveAttachment(Audio, sub.audio, env).value == Some(StorageName(Audio, env.tokens.audio, sub.audio.value));
    StoredNameShape(Audio, env.tokens.audio, sub.audio.value);
  }

  /** The stored video name is `video_<token>.<extension>`, with the
      video token and the upload's lower-cased extension. */
  lemma ReportedVideoName(store: Store, sub: Submission, env: Env)
    requires Acceptable(sub, env.failedWrites)
    requires sub.video.Some?
    ensures '.' in sub.video.value
    ensures ReportIssue(store, sub, env).result.value.videoFilename
         == Some("video_" + env.tokens.video + "." + Lower(Extension(sub.video.value)))
  {
    ReportedParts(store, sub, env);
    assert SaveAttachment(Video, sub.video, env).value == Some(StorageName(Video, env.tokens.video, sub.video.value));
    StoredNameShape(Video, env.tokens.video, sub.video.value);
  }

  /** Only unfolds `AvatarUrl`'s prefix and `StorageName` for the avatar
      kind, as a step of the proof of `ReportedAvatar`. */
  lemma AvatarUrlOfUpload(token: string, name: string)
    requires '.' in name
    ensures UploadUrlPath + "/" + StorageName(Avatar, token, name)
         == "/uploads/avatar_" + token + "." + Lower(Extension(name))
  {
  }

  /** An uploaded avatar file wins over a declared avatar; its URL points
      into the upload directory. A declared empty avatar counts as none. */
  lemma ReportedAvatar(store: Store, sub: Submission, env: Env)
    requires Acceptable(sub, env.failedWrites)
    ensures var issue := ReportIssue(store, sub, env).result.value;
      && (sub.avatarFile.Some? ==>
            '.' in sub.avatarFile.value &&
            issue.userAvatar == Some("/uploads/avatar_" + env.tokens.avatar + "." + Lower(Extension(sub.avatarFile.value))))
      && (sub.avatarFile.None? ==>
            issue.userAvatar == (if sub.userAvatar == Some("") then None else sub.userAvatar))
  {
    ReportedParts(store, sub, env);
    if sub.avatarFile.Some? {
      var name := sub.avatarFile.value;
      assert SaveAvatar(sub.avatarFile, env).value == Some(StorageName(Avatar, env.tokens.avatar, name));
      AvatarUrlOfUpload(env.tokens.avatar, name);
    }
  }

  /** After a successful submission the new issue is found under its id,
      and the store is still valid. */
  lemma ReportThenLookup(store: Store, sub: Submission, env: Env)
    requires Valid(store)
    requires Acceptable(sub, env.failedWrites)
    ensures var out := ReportIssue(store, sub, env);
      && Lookup(out.store, env.tokens.issue) == Some(out.result.value)
      && Valid(out.store)
  {
    var out := ReportIssue(store, sub, env);
    PutKeepsValid(store, out.result.value);
  }

  /** A fresh id grows the store by one at its end, and every earlier
      issue keeps its position and value. */
  lemma ReportAppends(store: Store, sub: Submission, env: Env)
    requires Acceptable(sub, env.failedWrites)
    requires !HasId(store, env.tokens.issue)
    ensures var out := ReportIssue(store, sub, env);
      && |out.store| == |store| + 1
      && out.store[..|store|] == store
      && out.store[|store|] == out.result.value
  {
  }

  /** With the uploads all accepted, bad coordinates answer
      `InvalidCoordinates` only after every supplied file was written:
      the files stay in the upload directory with no issue referring to
      them. */
  lemma BadCoordinatesAfterWrites(store: Store, sub: Submission, env: Env)
    requires UploadsAcceptable(sub, env.failedWrites)
    requires !(-90.0 <= sub.latitude <= 90.0 && -180.0 <= sub.longitude <= 180.0)
    ensures var out := ReportIssue(store, sub, env);
      && out.result == Failure(InvalidCoordinates)
      && out.store == store
      && out.saved == SaveUploads(sub, env).saved
      && |out.saved| == |Names(sub.avatarFile)| + |Names(sub.photo)| + |Names(sub.audio)| + |Names(sub.video)|
  {
  }

  /** A photo whose extension is refused is answered with
      `InvalidAttachment(Photo)`, after the avatar and before anything else;
      the photo itself is never written. */
  lemma BadPhotoRejected(store: Store, sub: Submission, env: Env)
    requires SaveAvatar(sub.avatarFile, env).Success?
    requires sub.photo.Some? && !AllowedFile(sub.photo.value, ImageExtensions)
    ensures ReportIssue(store, sub, env).result == Failure(InvalidAttachment(Photo))
    ensures ReportIssue(store, sub, env).store == store
    ensures ReportIssue(store, sub, env).saved == Names(SaveAvatar(sub.avatarFile, env).value)
  {
  }

  /** A dot-less avatar file name is an internal error, before any file is
      written. */
  lemma DotlessAvatarFails(store: Store, sub: Submission, env: Env)
    requires sub.avatarFile.Some? && '.' !in sub.avatarFile.value
    ensures ReportIssue(store, sub, env).result == Failure(MalformedAvatarName)
    ensures ReportIssue(store, sub, env).result.error.HttpStatus() == 500
    ensures ReportIssue(store, sub, env).saved == []
  {
  }

  function ExampleSubmission(latitude: real, photo: Option<string>): Submission
  {
    Submission(Pothole, "deep hole", latitude, -73.0, "Ana", "ana@example.org",
               None, None, photo, None, None)
  }

  const ExampleEnv: Env := Env(Tokens("t1", "t2", "t3", "t4", "id-1"), 1000, {})

  /** A pothole at (40, -73) with no uploads is stored as `reported` with no
      photo name and no analysis. */
  lemma PotholeScenario()
    ensures var out := ReportIssue([], ExampleSubmission(40.0, None), ExampleEnv);
      && out.result.Success?
      && out.result.value.status == Issues.Reported
      && out.result.value.photoFilename.None?
      && out.result.value.aiAnalysis.None?
      && out.store == [out.result.value]
  {
  }

  /** Latitude 95 is refused and the store keeps its size. */
  lemma OutOfRangeScenario(store: Store)
    ensures var out := ReportIssue(store, ExampleSubmission(95.0, None), ExampleEnv);
      && out.result == Failure(InvalidCoordinates)
      && |out.store| == |store|
  {
  }

  /** A photo named `x.exe` is refused and nothing is written. */
  lemma ExecutablePhotoScenario(store: Store)
    ensures var out := ReportIssue(store, ExampleSubmission(40.0, Some("x.exe")), ExampleEnv);
      && out.result == Failure(InvalidAttachment(Photo))
      && out.saved == []
      && out.store == store
  {
    ExtensionOfJoin("x", "exe");
    assert "x" + "." + "exe" == "x.exe";
    assert Lower("exe") == "exe";
    assert !AllowedFile("x.exe", ImageExtensions);
  }
}
