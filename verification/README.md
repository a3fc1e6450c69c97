# Smart Civic Reporting: issue store model

A Dafny model of the core of the civic-issue intake service in
`api/main.py`: citizens report issues (category, description, coordinates,
optional avatar, photo, audio and video uploads, reporter name and e-mail),
staff list them with optional status and category filters, change their
status, and read a summary of counts and the average resolution time.

The model is functional. The in-memory `issues_db` dict becomes a sequence
of `Issue` values in insertion order with unique ids (`IssueStore.Store`);
writing an existing key replaces that entry in place and a new key is
appended, as a Python dict does. Each endpoint is a pure function (or, for
the summary, a method with the source's single loop) that takes the store
and returns the new store together with the answer or the error.

Inputs that come from outside the code are parameters:

- the five `uuid.uuid4()` values of a submission (`Reporting.Tokens`);
- the instant `datetime.utcnow()` returns (`now`), as microseconds; the
  clock is not assumed to run forward;
- whether each upload's file write succeeds (`Env.failedWrites`); a failed
  write is an opaque `UploadFailed` error (HTTP 500).

Modules:

- `Wrappers`: `Option` and `Result`.
- `FileNames`: the extension allow-lists, `allowed_file`, the last-dot
  split, ASCII lower-casing, the stored name `<kind>_<token>.<ext>`, and
  the avatar's split with no dot guard.
- `Issues`: `Category`, `Status`, `Issue`, the coordinate validators, the
  errors with their HTTP status.
- `IssueStore`: the store, lookup by id, the dict assignment `Put`, and a
  generic order-keeping `Filter`.
- `Reporting`: `report_issue`, step by step in source order, with the
  list of files written before the answer.
- `Listing`: `list_issues`.
- `StatusUpdate`: `update_status`.
- `Analytics`: `analytics_summary`, with reference counts and the mean.

Behaviour of the code that a reader might not expect, and that the model
keeps:

- The upload checks and file writes are interleaved. An avatar or photo
  is written before later uploads are checked and before the coordinates
  are validated, so a refused submission can leave files behind
  (`Reporting.BadCoordinatesAfterWrites`). Nothing removes those files.
- Coordinates out of range make the `Issue` constructor raise a validation
  error inside the handler. That error is not caught, so it ends in HTTP
  500 rather than a dedicated client error.
- An avatar file name without a dot makes `rsplit('.', 1)[1]` raise, which
  is also an HTTP 500 (`Issues.Error.MalformedAvatarName`). A photo, audio
  or video name without a dot is refused with 400.
- Re-using an existing id overwrites that issue in place. There is no
  duplicate-id error.
- The summary maps hold only the categories and statuses that occur. A
  category or status with no issue is absent rather than listed with a
  zero count.
- Any status may follow any other. `update_status` does not check the
  order of transitions.

## Model

| member | source | states |
|---|---|---|
| FileNames.LowerFolds | api/main.py:92 | `.lower()` leaves no ASCII capital, and changes a character only by moving a capital to its small letter |
| FileNames.LastDot | api/main.py:92 | the split point of `rsplit('.', 1)` is a dot with no dot after it, and there is none exactly when the name has no dot |
| FileNames.Extension | api/main.py:92 | the extension is the dot-free tail of the name that follows its last dot |
| FileNames.ExtensionOfJoin | api/main.py:92 | splitting `base + "." + ext` at the last dot gives back `ext` whatever `base` holds, if `ext` has no dot |
| FileNames.AllowedFile | api/main.py:89-93 | an empty or dot-less name is refused; an accepted name's lower-cased extension is on the allow-list |
| FileNames.AllowedFileOfJoin | api/main.py:89-93 | a name `base.ext` is accepted exactly when `ext` lower-cased is on the allow-list |
| FileNames.AllowedFileIgnoresCase | api/main.py:92-93 | a name and its lower-cased form are accepted or refused together |
| FileNames.StorageNameKeepsExtension | api/main.py:135 | the stored name `<kind>_<token>.<ext>` has the upload's extension lower-cased and passes the same allow-list as the upload |
| FileNames.StorageNameOfJoin | api/main.py:135 | an upload named `base.ext` is stored as `<kind>_<token>.<ext lower-cased>`, whatever `base` holds; the avatar, audio and video names at lines 117, 149 and 162 are built the same way |
| FileNames.UpperCaseExtensionScenario | api/main.py:89-93 | a photo named `Pothole.JPG` is accepted and stored as `photo_<token>.jpg` |
| FileNames.AvatarExtension | api/main.py:114 | the avatar split fails exactly when the name has no dot, and otherwise yields a dot-free extension |
| FileNames.AvatarExtensionOfJoin | api/main.py:114 | the avatar split of `base.ext` yields `ext` lower-cased, whatever `base` holds |
| FileNames.AvatarCheckAgreesWithAllowedFile | api/main.py:114-116 | where the avatar split does not fail, the avatar check accepts exactly what `allowed_file` accepts with the image list |
| Issues.NewIssue | api/main.py:70-80 | the record is built iff -90 <= latitude <= 90 and -180 <= longitude <= 180, both ends included, and then holds the given fields |
| Issues.CoordinateBoundsInclusive | api/main.py:72-78 | the values ±90 and ±180 pass and values just beyond them fail |
| IssueStore.Find | api/main.py:210 | the position found holds the id and no earlier position does; there is none exactly when no issue has the id |
| IssueStore.Lookup | api/main.py:212 | the issue found is in the store under that id; there is none exactly when no issue has the id |
| IssueStore.LookupUnique | api/main.py:212 | with unique ids, looking up any stored issue's id returns that issue |
| IssueStore.Put | api/main.py:191 | an existing key keeps its position and takes the new value, a new key is appended; other entries are unchanged; ids stay unique; the key then looks up the new value |
| IssueStore.PutKeepsValid | api/main.py:191 | putting a record with valid coordinates keeps ids unique and every record valid |
| IssueStore.Filter | api/main.py:202 | a comprehension keeps exactly the elements that satisfy its condition |
| IssueStore.FilterKeepsOccurrences | api/main.py:202 | a comprehension keeps every occurrence of a kept element, repeats included, and none of a dropped one |
| IssueStore.FilterIsSubsequence | api/main.py:202 | a comprehension keeps its input's order |
| IssueStore.FilterTwice | api/main.py:201-204 | two comprehensions in a row equal one comprehension by the conjunction |
| Reporting.SaveAttachment | api/main.py:129-168 | an absent upload stores nothing; a present one succeeds iff `allowed_file` accepts it and its write succeeds, and is then stored as `StorageName` of its own kind and its own token; a refused extension gives `InvalidAttachment` of that kind, an accepted name whose write fails gives `UploadFailed` of that kind, and no other error occurs |
| Reporting.SavedNameKeepsExtension | api/main.py:135 | a stored upload name carries the upload's extension lower-cased and passes the allow-list the upload passed |
| Reporting.SaveAvatar | api/main.py:111-124 | no avatar file stores nothing; a dot-less avatar name fails with an internal error; otherwise the avatar is checked and stored like the other uploads |
| Reporting.SaveUploads | api/main.py:111-168 | the steps run as avatar, photo, audio, video, and the first one that fails answers with its own error after the files of the steps before it were written; they all succeed iff every supplied upload is accepted and written, and then the stored names are those of the single steps, one exactly for each supplied upload, written in that order |
| Reporting.ReportIssue | api/main.py:111-192 | a submission is answered with an issue iff every upload passes and is written and both coordinates are in range; the files written are those of the upload steps; a refused upload answers with the upload steps' error, accepted uploads with bad coordinates answer `InvalidCoordinates`; a refused submission leaves the store as it was; an accepted one is put into the store and has the fresh id, status `reported`, both timestamps equal to the submission instant, a stored name exactly for each supplied upload, an analysis exactly when a photo was supplied, and the submitted fields |
| Reporting.ReportedParts | api/main.py:173-189 | an accepted issue holds the names and the avatar URL computed by the upload steps |
| Reporting.ReportedPhotoName | api/main.py:135 | the stored photo name is `photo_<token>.<lower-cased extension>` and passes the image allow-list |
| Reporting.ReportedAudioName | api/main.py:149 | the stored audio name is `audio_<token>.<lower-cased extension>`, with the audio token |
| Reporting.ReportedVideoName | api/main.py:162 | the stored video name is `video_<token>.<lower-cased extension>`, with the video token |
| Reporting.ReportedAvatar | api/main.py:111-126 | an uploaded avatar file wins over a declared avatar; a declared empty avatar becomes none |
| Reporting.ReportThenLookup | api/main.py:191 | after an accepted submission the new issue is found under its id and the store stays valid |
| Reporting.ReportAppends | api/main.py:191 | with a fresh id the store grows by one at its end and earlier issues keep their positions |
| Reporting.BadCoordinatesAfterWrites | api/main.py:111-189 | with every supplied upload accepted and written, an out-of-range latitude or longitude answers `InvalidCoordinates` with the store unchanged, after one file was written for each supplied upload |
| Reporting.BadPhotoRejected | api/main.py:132-134 | a refused photo extension gives `InvalidAttachment(Photo)`, the store is unchanged, and only the avatar file was written |
| Reporting.DotlessAvatarFails | api/main.py:113-114 | a dot-less avatar name is an HTTP 500 before any file is written |
| Reporting.PotholeScenario | api/main.py:170-192 | a pothole at (40, -73) without uploads is stored as `reported` with no photo name and no analysis |
| Reporting.OutOfRangeScenario | api/main.py:70-74 | latitude 95 is refused and the store keeps its size |
| Reporting.ExecutablePhotoScenario | api/main.py:133-134 | a photo named `x.exe` is refused and no file is written |
| Listing.ListIssues | api/main.py:200-205 | the listing holds exactly the stored issues that match every given filter |
| Listing.ListIssuesIsConjunctiveFilter | api/main.py:200-205 | the two filters in a row equal one filter by their conjunction, and the listing is a subsequence of the store |
| Listing.ListAllIsStore | api/main.py:200 | with no filter the listing is the whole store in order |
| Listing.PotholeListingScenario | api/main.py:203-204 | of pothole, garbage, pothole, the pothole filter lists the two potholes in their order |
| StatusUpdate.UpdateStatus | api/main.py:208-215 | an unknown id fails with 404 and leaves the store unchanged; otherwise the issue under the id has the new status and the current instant, and is the answer |
| StatusUpdate.UpdateFrame | api/main.py:212-214 | the store keeps its length, ids and order; other issues are untouched; the updated one keeps its creation time and all fields except status and update time |
| StatusUpdate.UpdateKeepsValid | api/main.py:213-214 | an update keeps ids unique and coordinates valid |
| StatusUpdate.UpdateKeepsWellTimed | api/main.py:214 | if the clock reads no earlier than the issue's creation, every issue keeps `created_at <= updated_at` |
| StatusUpdate.UpdateWithClockSkew | api/main.py:214 | a clock reading before the creation time leaves an issue with `updated_at < created_at` |
| StatusUpdate.UpdateTwice | api/main.py:210-215 | repeating an update with the same status keeps that status; the result is the single update at the later instant |
| StatusUpdate.UpdateIgnoresLaterIssues | api/main.py:212-214 | an update commutes with appending an unrelated issue |
| Analytics.CategoryCountPositive | api/main.py:225-226 | a category's count is positive exactly when some issue has it |
| Analytics.StatusCountPositive | api/main.py:225-227 | a status's count is positive exactly when some issue has it |
| Analytics.CategoryCountsSum | api/main.py:220-226 | the counts per category add up to the number of issues |
| Analytics.StatusCountsSum | api/main.py:220-227 | the counts per status add up to the number of issues |
| Analytics.ResolutionTimesFacts | api/main.py:228-231 | every averaged time is positive; there are none exactly when no resolved issue took a positive time |
| Analytics.MeanPositive | api/main.py:233 | the mean of positive times is positive |
| Analytics.MeanTimesLength | api/main.py:233 | a mean exists exactly for a non-empty list, and multiplied by the length it gives back the sum |
| Analytics.CountPass | api/main.py:225-231 | the single loop yields maps whose keys are exactly the present categories and statuses, with their counts, and the positive resolution times in store order |
| Analytics.CountsAddUp | api/main.py:225-227 | maps holding exactly the present categories or statuses with their counts, as the summary's do, add up to the number of issues |
| Analytics.AnalyticsSummary | api/main.py:218-240 | the total is the store size; a category or status is a key exactly when its count is positive, that is when some issue has it (`CategoryCountPositive`, `StatusCountPositive`); each key holds its count, so both maps add up to the total (`CountsAddUp`); the average is absent exactly when no positive resolution time was collected, and otherwise is positive and, multiplied by their number, gives their sum |
| Analytics.CountsAgreeWithListing | api/main.py:225-227 | the count for a category or a status equals the length of the listing filtered by it |
| Analytics.AverageSkipsZeroScenario | api/main.py:228-233 | two resolved issues taking 10 s and 0 s average to 10 s |

## Left out

- The FastAPI application, CORS middleware, static mounts and the root
  page (api/main.py:15-37, 243-248): framework wiring with no logic of
  the store.
- Form parsing and enum coercion: inputs arrive as typed values. A missing
  form field or an unknown category or status is refused by the framework
  before the handler runs, so it is not modelled.
- File contents and the upload directory. Only each write's success is an
  input and only the written names are recorded. Whether a failed write
  leaves a partial file behind is not modelled.
- `analyze_photo_ai` is the constant string it returns (`Reporting.AiVerdict`).
- `uuid.uuid4()` and `datetime.utcnow()` are inputs. The model does not
  assume the tokens differ from each other or from stored ids; if an id
  is reused, the store overwrites that entry, as the dict does.
- An upload whose `filename` is `None` is not modelled. File names are
  strings, and the empty string stands for a missing name.
- FileNames.AllowedFile: lower-casing covers ASCII letters only. Python's
  `str.lower` also folds other letters. For example, KELVIN SIGN (U+212A)
  lowers to `k`, so Python accepts a video named `a.MKV` written with that
  sign, and the model refuses it.
- Analytics.AnalyticsSummary: timestamps are whole microseconds, and
  coordinates, resolution times and the mean are exact reals. IEEE-754
  rounding of the float sum and division is not modelled. The key order of
  the response maps is not modelled either; Python lists keys in order of
  first occurrence.
- Issues.NewIssue: coordinates are exact reals. A float NaN or infinity,
  which the validators refuse because every comparison with it fails or
  is out of range, has no counterpart in the model.
- Concurrency between requests: each request is applied to the store as
  one step.
