/** The attachment file-name rules of the intake endpoint: the extension
    allow-lists, the `allowed_file` check, the avatar's unguarded extension
    split, and the name under which an accepted attachment is stored. */
module FileNames {

  import opened Wrappers

  /** The four kinds of uploaded file the endpoint accepts. */
  datatype MediaKind = Avatar | Photo | Audio | Video

  const ImageExtensions: set<string> := {"jpg", "jpeg", "png", "gif", "bmp"}
  const AudioExtensions: set<string> := {"mp3", "wav", "ogg", "webm"}
  const VideoExtensions: set<string> := {"mp4", "webm", "mov", "avi", "mkv"}

  /** The allow-list a kind of upload is checked against; avatars and photos
      share the image list. */
  function AllowedExtensions(kind: MediaKind): set<string>
  {
    match kind
    case Avatar => ImageExtensions
    case Photo => ImageExtensions
    case Audio => AudioExtensions
    case Video => VideoExtensions
  }

  /** The word in front of the token in a stored file name. */
  function KindPrefix(kind: MediaKind): string
  {
    match kind
    case Avatar => "avatar"
    case Photo => "photo"
    case Audio => "audio"
    case Video => "video"
  }

  /** Python's `str.lower` restricted to ASCII letters. */
  function LowerChar(c: char): char
  {
    if 'A' <= c <= 'Z' then (c as int - 'A' as int + 'a' as int) as char else c
  }

  function Lower(s: string): (r: string)
    ensures |r| == |s|
    ensures forall i :: 0 <= i < |s| ==> r[i] == LowerChar(s[i])
  {
    seq(|s|, i requires 0 <= i < |s| => LowerChar(s[i]))
  }

  /** Lowering leaves no capital letter, and changes a character only by
      moving a capital to its small letter, 32 code points on. */
  lemma LowerFolds(s: string)
    ensures forall i :: 0 <= i < |s| ==> !('A' <= Lower(s)[i] <= 'Z')
    ensures forall i :: 0 <= i < |s| ==>
      Lower(s)[i] == s[i] || ('A' <= s[i] <= 'Z' && Lower(s)[i] as int == s[i] as int + 32)
  {
  }

  /** Lowering never creates or removes a dot, and lowering twice is
      lowering once. */
  lemma LowerCharFacts(c: char)
    ensures LowerChar(c) == '.' <==> c == '.'
    ensures LowerChar(LowerChar(c)) == LowerChar(c)
  {
  }

  lemma LowerIdempotent(s: string)
    ensures Lower(Lower(s)) == Lower(s)
  {
    forall i | 0 <= i < |s|
      ensures Lower(Lower(s))[i] == Lower(s)[i]
    {
      LowerCharFacts(s[i]);
    }
  }

  lemma LowerKeepsDots(s: string)
    ensures '.' in Lower(s) <==> '.' in s
  {
    if '.' in s {
      var i :| 0 <= i < |s| && s[i] == '.';
      assert Lower(s)[i] == '.';
    }
    if '.' in Lower(s) {
      var i :| 0 <= i < |s| && Lower(s)[i] == '.';
      LowerCharFacts(s[i]);
      assert s[i] == '.';
    }
  }

  /** Position of the last '.' in `s`, the split point of
      `rsplit('.', 1)`. */
  function LastDot(s: string): (r: Option<nat>)
    ensures r.Some? ==> r.value < |s| && s[r.value] == '.'
    ensures r.Some? ==> forall j :: r.value < j < |s| ==> s[j] != '.'
    ensures r.None? <==> '.' !in s
  {
    if |s| == 0 then None
    else if s[|s| - 1] == '.' then Some(|s| - 1)
    else
      var r := LastDot(s[..|s| - 1]);
      assert forall j :: 0 <= j < |s| - 1 ==> s[..|s| - 1][j] == s[j];
      r
  }

  /** The text after the last '.', the element `[1]` of
      `filename.rsplit('.', 1)`. */
  function Extension(filename: string): (ext: string)
    requires '.' in filename
    ensures |ext| < |filename|
    ensures filename[|filename| - |ext| - 1] == '.'
    ensures filename[|filename| - |ext|..] == ext
    ensures '.' !in ext
  {
    var k := LastDot(filename).value;
    var ext := filename[k + 1..];
    assert forall j :: 0 <= j < |ext| ==> ext[j] == filename[k + 1 + j];
    ext
  }

  /** Splitting a name at its last dot recovers the extension it was built
      with, whatever the base holds (dots included). */
  lemma ExtensionOfJoin(base: string, ext: string)
    requires '.' !in ext
    ensures '.' in base + "." + ext
    ensures Extension(base + "." + ext) == ext
  {
    var s := base + "." + ext;
    assert s[|base|] == '.';
  }

  /** `allowed_file`: a name passes when it is non-empty, holds a dot, and
      its lower-cased extension is on the allow-list. */
  function AllowedFile(filename: string, allowed: set<string>): (ok: bool)
    ensures |filename| == 0 ==> !ok
    ensures '.' !in filename ==> !ok
    ensures ok ==> Lower(Extension(filename)) in allowed
  {
    if |filename| == 0 || '.' !in filename then false
    else Lower(Extension(filename)) in allowed
  }

  /** Lowering a join lowers its two sides and keeps the dot. */
  lemma LowerOfJoin(base: string, ext: string)
    ensures Lower(base + "." + ext) == Lower(base) + "." + Lower(ext)
  {
    var joined, lowered := base + "." + ext, Lower(base) + "." + Lower(ext);
    forall i | 0 <= i < |joined|
      ensures Lower(joined)[i] == lowered[i]
    {
      if i < |base| {
      } else if i == |base| {
      } else {
        assert joined[i] == ext[i - |base| - 1];
      }
    }
  }

  /** Lowering commutes with taking the extension. */
  lemma ExtensionOfLower(filename: string)
    requires '.' in filename
    ensures '.' in Lower(filename)
    ensures Extension(Lower(filename)) == Lower(Extension(filename))
  {
    LowerKeepsDots(filename);
    var ext := Extension(filename);
    var base := filename[..|filename| - |ext| - 1];
    assert filename == base + "." + ext;
    LowerOfJoin(base, ext);
    LowerKeepsDots(ext);
    ExtensionOfJoin(Lower(base), Lower(ext));
  }

  /** The check ignores case: a name and its lower-cased form are accepted
      or refused together. */
  lemma {:induction false} AllowedFileIgnoresCase(filename: string, allowed: set<string>)
    ensures AllowedFile(Lower(filename), allowed) == AllowedFile(filename, allowed)
  {
    LowerKeepsDots(filename);
    if '.' in filename {
      ExtensionOfLower(filename);
      LowerIdempotent(Extension(filename));
    }
  }

  /** Full characterisation of the check on a name given as base and
      extension: it passes exactly when the lower-cased extension is
      allowed. */
  lemma AllowedFileOfJoin(base: string, ext: string, allowed: set<string>)
    requires '.' !in ext
    ensures AllowedFile(base + "." + ext, allowed) <==> Lower(ext) in allowed
  {
    ExtensionOfJoin(base, ext);
  }

  /** The stored name `<kind>_<token>.<lower-cased extension>`. */
  function StorageName(kind: MediaKind, token: string, filename: string): string
    requires '.' in filename
  {
    KindPrefix(kind) + "_" + token + "." + Lower(Extension(filename))
  }

  /** A name `base.ext` is stored as `<kind>_<token>.<ext lower-cased>`,
      whatever `base` holds. */
  lemma StorageNameOfJoin(kind: MediaKind, token: string, base: string, ext: string)
    requires '.' !in ext
    ensures '.' in base + "." + ext
    ensures StorageName(kind, token, base + "." + ext) == KindPrefix(kind) + "_" + token + "." + Lower(ext)
  {
    ExtensionOfJoin(base, ext);
  }

  /** The stored name keeps the upload's extension in lower case, so it
      passes the same allow-list the upload passed. */
  lemma StorageNameKeepsExtension(kind: MediaKind, token: string, filename: string, allowed: set<string>)
    requires '.' in filename
    ensures '.' in StorageName(kind, token, filename)
    ensures Extension(StorageName(kind, token, filename)) == Lower(Extension(filename))
    ensures AllowedFile(StorageName(kind, token, filename), allowed) == AllowedFile(filename, allowed)
  {
    var ext := Lower(Extension(filename));
    LowerKeepsDots(Extension(filename));
    ExtensionOfJoin(KindPrefix(kind) + "_" + token, ext);
    LowerIdempotent(Extension(filename));
  }

  /** A photo named `Pothole.JPG` is accepted and stored as
      `photo_<token>.jpg`. */
  lemma UpperCaseExtensionScenario()
    ensures AllowedFile("Pothole.JPG", ImageExtensions)
    ensures StorageName(Photo, "t", "Pothole.JPG") == "photo_t.jpg"
  {
    ExtensionOfJoin("Pothole", "JPG");
    assert "Pothole" + "." + "JPG" == "Pothole.JPG";
    assert Lower("JPG") == "jpg";
  }

  /** The avatar branch splits with no dot guard: a dot-less name makes
      `rsplit('.', 1)[1]` raise, modelled as `None`. Otherwise the
      lower-cased extension. */
  function AvatarExtension(filename: string): (r: Option<string>)
    ensures r.None? <==> '.' !in filename
    ensures r.Some? ==> '.' !in r.value
  {
    if '.' in filename then
      LowerKeepsDots(Extension(filename));
      Some(Lower(Extension(filename)))
    else None
  }

  /** The avatar split of `base.ext` yields `ext` lower-cased, whatever
      `base` holds. */
  lemma AvatarExtensionOfJoin(base: string, ext: string)
    requires '.' !in ext
    ensures AvatarExtension(base + "." + ext) == Some(Lower(ext))
  {
    ExtensionOfJoin(base, ext);
  }

  /** Where the avatar branch does not raise, it accepts exactly the names
      `allowed_file` accepts with the image list. */
  lemma AvatarCheckAgreesWithAllowedFile(filename: string)
    requires '.' in filename
    ensures AvatarExtension(filename).Some?
    ensures AvatarExtension(filename).value in ImageExtensions <==> AllowedFile(filename, ImageExtensions)
  {
  }
}
