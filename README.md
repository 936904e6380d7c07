# Zoom meeting tracker — a Dafny model of its reconciliation core

The tracker keeps a local copy of Zoom meetings, their participants, their cloud recordings and
the OAuth tokens used to reach the Zoom API. This project models the part of it that decides
what is stored:

- the four tables and their keys, and how the sqlite file's path is derived from the database
  URL (`Database`, with `Paths` for `os.path.join`/`os.path.dirname`);
- the meeting service: keyed upserts with partial merge for meetings, participants and
  recordings; the participant-duration arithmetic; the participant sync and the
  `participant_count` it maintains; the recording sync, which resets every synced recording to
  pending; the download's path and status change; the detail, list and statistics queries
  (`MeetingService`, `MeetingSync`, `MeetingQueries`);
- the Zoom client's token lifecycle (latest row only, expiry check, refresh with rotate-or-keep
  refresh token) and its fallback policy when a fetch fails (`ZoomService`);
- the webhook endpoint: the signature gate, the dispatch on the event name and the five
  handlers as sequences of store operations (`Webhooks`);
- the OAuth routes: authorization URL, callback insert, status and disconnect (`Auth`);
- the two frontend `formatDuration` helpers and the detail page's chart pipeline
  (`MeetingDetail`, `Dashboard`), with JavaScript's `Math.floor` and sign-keeping `%`.

The store is the class `Database.Store`, one field per table. Meetings, participants and
recordings are maps keyed by `meeting_id`, `(meeting_id, user_id)` and `recording_id`. Tokens
are a sequence whose last row is the newest. Each state-changing operation is a method on the
store. Its postcondition ties the result and the new tables to a pure step function of the old
tables (`StoreParticipantStep`, `SyncParticipantsStep`, `RefreshStep`, `WebhookStep`, ...), and
the properties are proved as lemmas about those functions. Time is an integer count of
microseconds, passed in as `now`. Replies from the Zoom API, the ISO-8601 parser and the
HMAC-SHA256 hex digest are parameters.

## Model

| member | source | states |
|---|---|---|
| Database.Store.constructor | backend/config/database.py:42-100 | a new store has four empty tables, and every row is filed under its own unique key |
| Database.DatabaseUrl | backend/config/database.py:11 | a set `DATABASE_URL` wins, even when empty; otherwise the sqlite default URL |
| Database.ExtractDbPath | backend/config/database.py:17 | the separator is `///` when the URL has one, else `//`; the path holds no separator and ends the URL right after an occurrence of it, or is the whole URL when the separator does not occur; which occurrence a longer run of slashes yields is pinned by `Database.DbPathOfUrl` |
| Database.NormaliseDbPath | backend/config/database.py:18-21 | a leading `./` is dropped; a path neither `./`-relative nor absolute gets `./` in front; an absolute path is kept |
| Database.DbPath | backend/config/database.py:15-21 | a path is derived exactly when the URL mentions sqlite |
| Database.DataDirectory | backend/config/database.py:24-27 | a directory is created only for a sqlite URL whose path holds a `/`; it is a non-empty prefix of the path |
| Database.DbPathOfUrl | backend/config/database.py:15-21 | for `<scheme>///<path>`, the path is everything after the first `///`, normalised |
| Database.DefaultDataDirectory | backend/config/database.py:11-27 | the default URL gives the path `data/meetings.db` and the directory `data` |
| ZoomService.GetMeetingReport | backend/services/zoom_service.py:150-156 | the report is present exactly when the request succeeded |
| ZoomService.ReportParticipants | backend/services/zoom_service.py:142-143 | the report's participant list exactly when the report is present and has the key; [] when the report is missing or has no such key |
| ZoomService.GetMeetingParticipants | backend/services/zoom_service.py:119-148 | fails exactly on an error that is neither a 404 nor a restricted-account error, with that error; success gives `participants` or []; after a 404 the live meeting's `participants` (or [] when missing), and [] when that request fails too; after a restriction the report's `participants` (or [] when missing), and [] when the report request fails |
| ZoomService.GetMeetingRecordings | backend/services/zoom_service.py:158-171 | fails exactly on a non-404 error; success gives `recording_files` or [] |
| ZoomService.ListMeetings | backend/services/zoom_service.py:201-216 | without a session it fails before any request; with one it returns the reply |
| ZoomService.Latest | backend/services/zoom_service.py:21-24 | there is a latest row exactly when there are rows, and it is the last one inserted |
| ZoomService.AccessTokenStep | backend/services/zoom_service.py:19-35 | no rows gives "no access token" with nothing changed; a failure changes nothing |
| ZoomService.RefreshStep | backend/services/zoom_service.py:37-80 | a failed refresh changes nothing; a successful one keeps the row count, or adds a row when there was none |
| ZoomService.GetAccessToken | backend/services/zoom_service.py:19-35 | the token rows and result are those of `AccessTokenStep` |
| ZoomService.RefreshAccessToken | backend/services/zoom_service.py:37-80 | the token rows and result are those of `RefreshStep` |
| ZoomService.OnlyLatestTokenMatters | backend/services/zoom_service.py:21-24 | rows before the latest change neither the result nor the latest row after the call, and are kept |
| ZoomService.UnexpiredTokenIsReturned | backend/services/zoom_service.py:29-35 | a latest row with no expiry, or not yet expired, is returned as is, with nothing changed |
| ZoomService.ExpiredTokenIsRefreshed | backend/services/zoom_service.py:30-33 | an expired latest row is refreshed with its own refresh token |
| ZoomService.RefreshExactlyWhenExpired | backend/services/zoom_service.py:30-33 | a refresh request is made exactly when now is at or after `expires_at` |
| ZoomService.RefreshNeedsRefreshToken | backend/services/zoom_service.py:39-40 | a missing or empty refresh token fails with nothing changed |
| ZoomService.SuccessfulRefresh | backend/services/zoom_service.py:60-80 | returns the new access token; the latest row gets it, `expires_at` = now + `expires_in`, and the returned refresh token or else the one used; earlier rows and `created_at` are kept |
| ZoomService.RefreshedTokenIsUsed | backend/services/zoom_service.py:60-80 | after a successful refresh, lookups before the new expiry return the new token with no further refresh |
| MeetingService.IsoText | backend/services/meeting_service.py:329 | every `Z` is replaced, so none is left for the parser |
| MeetingService.ParseDatetime | backend/services/meeting_service.py:324-331 | None for a missing or empty string; otherwise the parser's answer on the text with `Z` replaced, None when it fails |
| MeetingService.ParseTrailingZ | backend/services/meeting_service.py:329 | a trailing `Z` is read as `+00:00` |
| MeetingService.UpsertMeeting | backend/services/meeting_service.py:11-31 | only the row under `meeting_id` is created or changed; rows stay filed under their keys; `updated_at` is now |
| MeetingService.UpsertMeetingMerge | backend/services/meeting_service.py:18-27 | each field in the input (duration included) replaces the stored one; each field not in it keeps the stored value (or its default in a new row); `created_at` and `participant_count` are kept |
| MeetingService.UpsertMeetingIdempotent | backend/services/meeting_service.py:11-31 | storing the same input twice at the same time equals storing it once |
| MeetingService.UpsertMeetingsCommute | backend/services/meeting_service.py:11-31 | storing two different meetings gives the same table in either order |
| MeetingService.StoreMeeting | backend/services/meeting_service.py:11-31 | the meetings table becomes `UpsertMeeting` of the old one, and the stored row is returned |
| MeetingService.ElapsedSeconds | backend/services/meeting_service.py:43 | whole seconds between join and leave, truncated toward zero; not clamped, so at most 0 when leave precedes join |
| MeetingService.DurationUpdate | backend/services/meeting_service.py:36-44 | without both times in the input the duration is not touched; otherwise it is set, or parsing fails |
| MeetingService.StoreParticipantStep | backend/services/meeting_service.py:33-66 | fails exactly when the duration cannot be computed, changing nothing; success writes the returned row under its `(meeting_id, user_id)` key and nowhere else, keeping `created_at` of a stored row and stamping a new one with the current time |
| MeetingService.DurationNeedsBothTimes | backend/services/meeting_service.py:36-44 | without both times in the input the stored duration (or None) is kept |
| MeetingService.DurationFromTimes | backend/services/meeting_service.py:36-44 | with both times the duration is the truncated difference in seconds, not clamped at zero |
| MeetingService.UnparseableTimeFails | backend/services/meeting_service.py:39-43 | a raw time the parser rejects makes the store fail with nothing changed |
| MeetingService.ParticipantMerge | backend/services/meeting_service.py:54-58 | on a stored participant, every field in the input replaces the stored value and every field not in it is kept; the duration is replaced only when one was computed; key and `created_at` are kept |
| MeetingService.ParticipantInsert | backend/services/meeting_service.py:59-62 | a new participant holds the input's fields, `None` in every field the input lacks, the computed duration if any, and the current time as `created_at` |
| MeetingService.StoreParticipant | backend/services/meeting_service.py:33-66 | the participants table and result are those of `StoreParticipantStep` |
| MeetingService.StoreRecordingStep | backend/services/meeting_service.py:223-242 | fails exactly when the recording id is missing, with nothing changed; otherwise writes the row under its id and sets its meeting |
| MeetingService.StoreRecording | backend/services/meeting_service.py:223-242 | the recordings table and result are those of `StoreRecordingStep` |
| MeetingService.RecordingMerge | backend/services/meeting_service.py:230-234 | on a stored recording, the meeting is the input's, every field in the input replaces the stored value, every other field is kept, and id and `created_at` are kept |
| MeetingService.RecordingInsert | backend/services/meeting_service.py:235-238 | a new recording holds the input's meeting, id and fields, `None` in every other field, status `pending` unless the input names one, and the current time as `created_at` |
| MeetingSync.AsStamp | backend/services/meeting_service.py:88-89 | a parsed time is stored as an instant, and a missing one as None |
| MeetingSync.DeviceOf | backend/services/meeting_service.py:90 | `device` when truthy, else the `devices` list joined with ", ", else None |
| MeetingSync.ToParticipantPatch | backend/services/meeting_service.py:83-93 | `user_id` falls back to `id`, `name` to `user_name`, `user_email` to `email`; the times are set exactly when they parse |
| MeetingSync.ParticipantPatches | backend/services/meeting_service.py:82-93 | one input per provider record, in order |
| MeetingSync.StoreParticipants | backend/services/meeting_service.py:82-95 | when all succeed, one stored row per record and every record's key is in the table; no key is lost |
| MeetingSync.ParsedPatchesStore | backend/services/meeting_service.py:88-94 | inputs whose times come from the parser never fail to store |
| MeetingSync.StoreParticipantsKeeps | backend/services/meeting_service.py:82-95 | records for other keys leave a stored participant as it was |
| MeetingSync.ReturnedParticipantsAreFinal | backend/services/meeting_service.py:82-95 | when every record has its own key, each returned row is the final row under that key |
| MeetingSync.WithParticipantCount | backend/services/meeting_service.py:120-128 | only the meeting's own row changes, taking the count and `updated_at` = now; no row is added |
| MeetingSync.UpdateParticipantCount | backend/services/meeting_service.py:113-130 | returns the number of participant rows with the meeting id, whether or not the meeting exists, and updates the meetings table accordingly |
| MeetingSync.SyncParticipantsStep | backend/services/meeting_service.py:68-111 | recordings and tokens are untouched and every row stays under its key |
| MeetingSync.SyncFailsOnlyWhenFetchFails | backend/services/meeting_service.py:101-111 | the sync fails exactly when the fetch does, with that error, nothing changed, and never for a 404 or a restricted account |
| MeetingSync.SyncSetsParticipantCount | backend/services/meeting_service.py:94-98 | after a non-empty fetch, one row per record is returned, and the meeting's `participant_count` is the number of its participant rows, at least 1, with `updated_at` = now |
| MeetingSync.EmptyFetchChangesNothing | backend/services/meeting_service.py:78-80 | an empty fetch returns [] and leaves every table, the count included, unchanged |
| MeetingSync.SyncMeetingParticipants | backend/services/meeting_service.py:68-111 | the loop leaves the store and result that `SyncParticipantsStep` gives |
| MeetingSync.ToRecordingPatch | backend/services/meeting_service.py:254-266 | the recording id is the file's `id`; the status is pending and the file path None |
| MeetingSync.RecordingPatches | backend/services/meeting_service.py:253-266 | one input per provider file, in order |
| MeetingSync.StoreRecordings | backend/services/meeting_service.py:253-268 | when all succeed, one stored row per file; rows stay under their ids |
| MeetingSync.StoreRecordingsKeeps | backend/services/meeting_service.py:253-268 | files with other ids leave a stored recording as it was |
| MeetingSync.ReturnedRecordingsAreFinal | backend/services/meeting_service.py:253-268 | when every file has its own id, each returned row is the final row under that id |
| MeetingSync.SyncRecordingsStep | backend/services/meeting_service.py:244-270 | meetings, participants and tokens are untouched and every row stays under its key |
| MeetingSync.SyncResetsRecordings | backend/services/meeting_service.py:253-268 | after a successful sync every file's row exists, belongs to the meeting, is pending and has no file path |
| MeetingSync.RecordingSyncResets | backend/services/meeting_service.py:253-267 | a re-sync resets every listed recording, downloaded or not, to pending with no file path |
| MeetingSync.MissingIdStopsSync | backend/services/meeting_service.py:256-267 | the first file without an id fails the sync; the files before it stay stored |
| MeetingSync.SyncMeetingRecordings | backend/services/meeting_service.py:244-270 | the loop leaves the store and result that `SyncRecordingsStep` gives |
| MeetingSync.Extension | backend/services/meeting_service.py:294-297 | `mp4` exactly for MP4, `m4a` exactly for M4A, `txt` for anything else |
| MeetingSync.RecordingPathShape | backend/services/meeting_service.py:291-299 | the path is `recordings/<meeting>/<recording>.<ext>` and lies in `recordings/<meeting>` |
| MeetingSync.DownloadStep | backend/services/meeting_service.py:279-309 | a failure changes nothing; a failed transfer is a failure; success keeps the set of recordings and their keys |
| MeetingSync.DownloadNeedsUrl | backend/services/meeting_service.py:279-288 | fails as unavailable exactly when no row matches both ids or its download URL is empty |
| MeetingSync.DownloadMarksRow | backend/services/meeting_service.py:299-306 | success returns the path, and only that row changes: `file_path` is the path and the status is downloaded |
| MeetingSync.DownloadRecording | backend/services/meeting_service.py:272-309 | the recordings table and result are those of `DownloadStep` |
| MeetingQueries.JoinOrderIsTotal | backend/services/meeting_service.py:150 | ordering by join time (nulls first) is a total preorder |
| MeetingQueries.ParticipantsByJoin | backend/services/meeting_service.py:146-152 | exactly the meeting's participant rows, each once, sorted by join time |
| MeetingQueries.GetMeetingDetails | backend/services/meeting_service.py:132-179 | None exactly when no such meeting exists; otherwise that meeting and its participants by join time |
| MeetingQueries.NewestFirstIsTotal | backend/services/meeting_service.py:190 | ordering by `created_at` descending is a total preorder |
| MeetingQueries.Page | backend/services/meeting_service.py:191-192 | `LIMIT`/`OFFSET`: the elements from the offset on, at most limit of them |
| MeetingQueries.MeetingsNewestFirst | backend/services/meeting_service.py:188-190 | every meeting exactly once, newest first |
| MeetingQueries.AllMeetingsPage | backend/services/meeting_service.py:181-194 | a page is newest first, has the size limit and offset give, holds stored rows, and is no older than the next page |
| MeetingQueries.AllMeetingsFirstPage | backend/services/meeting_service.py:181-194 | with a limit covering the table, the first page holds every meeting |
| MeetingQueries.Stats | backend/services/meeting_service.py:203-221 | the count is the number of durations, the total their sum and the average the sum over the count; no durations give all zeros; min and max are durations and bound them all |
| MeetingQueries.StatsBounds | backend/services/meeting_service.py:203-221 | with a positive count, min ≤ max, count·min ≤ total ≤ count·max, and min ≤ avg ≤ max |
| MeetingQueries.TimedParticipantsOf | backend/services/meeting_service.py:209-212 | exactly the meeting's participants whose duration is not null |
| MeetingQueries.Durations | backend/services/meeting_service.py:205-208 | the durations of the rows, in order |
| MeetingQueries.GetParticipantStats | backend/services/meeting_service.py:196-221 | counts only the meeting's rows with a duration; all zeros when there are none; min and max are durations of such rows and bound every one; the total is their sum and the average the total over the count |
| MeetingQueries.TotalDurationWithout | backend/services/meeting_service.py:208 | the sum over a set of rows is any one row's duration plus the sum over the rest, so it does not depend on the order of the rows |
| MeetingQueries.RowsTotal | backend/services/meeting_service.py:208 | the rows gathered in any order sum to the order-free total |
| MeetingQueries.ParticipantStatsBounds | backend/services/meeting_service.py:202-221 | with a positive count, min ≤ max and count·min ≤ total ≤ count·max |
| Sorting.InsertionSort | backend/services/meeting_service.py:150 | the result is sorted, and is a permutation of the input |
| Sorting.SortIsStable | frontend/src/pages/MeetingDetail.jsx:154 | elements that sort alike keep their relative order |
| Webhooks.RefText | backend/routes/webhooks.py:66 | `str(id)`: a text id as is, a number in decimal |
| Webhooks.RawStamp | backend/routes/webhooks.py:68 | an event time is handed to the store as the raw string, or None when absent |
| Webhooks.Dispatch | backend/routes/webhooks.py:41-56 | operations come only from one of the five event names |
| Webhooks.ApplyOp | backend/routes/webhooks.py:71-122 | each store operation leaves the tokens alone and keeps rows under their keys |
| Webhooks.RunOps | backend/routes/webhooks.py:71-122 | operations run in order and stop at the first failure; no operations change nothing |
| Webhooks.WebhookStep | backend/routes/webhooks.py:22-59 | the endpoint never touches the tokens and keeps rows under their keys |
| Webhooks.BadSignatureChangesNothing | backend/routes/webhooks.py:35-39 | with a secret set and a wrong or missing signature, no handler runs and the answer is the catch-all's 500 |
| Webhooks.NoSecretNoCheck | backend/routes/webhooks.py:35-36 | without a secret the signature and the digest play no part |
| Webhooks.AcceptedRequestDispatches | backend/routes/webhooks.py:41-59 | an accepted request runs the dispatched operations and answers success exactly when they succeed |
| Webhooks.MalformedBodyChangesNothing | backend/routes/webhooks.py:31-32 | a body that is not JSON changes nothing and answers 500 |
| Webhooks.UnknownEventIsNoOp | backend/routes/webhooks.py:44-56 | any other event name, or none, changes nothing and still answers success |
| Webhooks.MissingIdIsNoOp | backend/routes/webhooks.py:63-64 | without a truthy meeting id every handler does nothing |
| Webhooks.MeetingStartedStoresMeeting | backend/routes/webhooks.py:61-71 | stores `str(id)` with topic, start time and host email; the meeting's other fields and the other tables are kept |
| Webhooks.MeetingEndedOrder | backend/routes/webhooks.py:73-86 | participant sync, then recording sync, then storing only the end time |
| Webhooks.RecordingCompletedSyncs | backend/routes/webhooks.py:118-122 | only a recording sync for `str(id)` |
| Webhooks.ParticipantJoinedKeepsDuration | backend/routes/webhooks.py:88-103 | stores the join time under `(str(id), user_id)` and leaves the duration as it was |
| Webhooks.ParticipantLeftKeepsDuration | backend/routes/webhooks.py:105-116 | stores the leave time under `(str(id), user_id)` and computes no duration from a stored join time |
| Webhooks.ParticipantEventNeedsParticipant | backend/routes/webhooks.py:93 | both participant events do nothing without a meeting id and a non-empty participant |
| Webhooks.HandleMeetingStarted | backend/routes/webhooks.py:61-71 | the store ends as running `MeetingStarted`'s operations leaves it |
| Webhooks.HandleMeetingEnded | backend/routes/webhooks.py:73-86 | the store ends as running `MeetingEnded`'s operations, in order, leaves it |
| Webhooks.HandleParticipantJoined | backend/routes/webhooks.py:88-103 | the store ends as running `ParticipantJoined`'s operations leaves it |
| Webhooks.HandleParticipantLeft | backend/routes/webhooks.py:105-116 | the store ends as running `ParticipantLeft`'s operations leaves it |
| Webhooks.HandleRecordingCompleted | backend/routes/webhooks.py:118-122 | the store ends as running `RecordingCompleted`'s operations leaves it |
| Webhooks.ZoomWebhook | backend/routes/webhooks.py:22-59 | the answer and the store are those of `WebhookStep` |
| Auth.InitiateOAuth | backend/routes/auth.py:12-31 | a 500 exactly when the client id or the redirect URI is missing or empty; otherwise the same URL twice, the authorize endpoint with the client id and redirect URI as query parameters |
| Auth.AuthUrlQuery | backend/routes/auth.py:24-29 | the query reads back as `response_type=code`, the client id and the redirect URI, in that order |
| Auth.FrontendUrl | backend/routes/auth.py:84 | a set `FRONTEND_URL` wins, even when empty; otherwise `http://localhost:3000` |
| Auth.GrantedToken | backend/routes/auth.py:73-78 | the new row has the granted access token, the refresh token or null, `expires_at` = now + `expires_in`, type Bearer and `created_at` now |
| Auth.CallbackStep | backend/routes/auth.py:33-92 | a failure leaves the tokens as they were; success appends exactly one row |
| Auth.CallbackGuards | backend/routes/auth.py:39-50 | a 400 exactly for an empty code; a 500 when any credential is missing; success needs all three and a granted exchange |
| Auth.CallbackPassesStatus | backend/routes/auth.py:86-90 | a refused exchange surfaces with the provider's status code |
| Auth.CallbackTokenIsLatest | backend/routes/auth.py:73-85 | success redirects to the frontend, and the new row is the latest, returned by every lookup before it expires |
| Auth.OAuthCallback | backend/routes/auth.py:33-92 | the token rows and result are those of `CallbackStep` |
| Auth.AuthStatusMeaning | backend/routes/auth.py:94-108 | authenticated exactly when a latest row exists that is unexpired, or expired with a refresh token and a granted refresh; otherwise nothing changes |
| Auth.AuthStatus | backend/routes/auth.py:94-108 | the answer and token rows are those of `AuthStatusStep` |
| Auth.DisconnectZoom | backend/routes/auth.py:110-124 | every token row is deleted |
| Auth.DisconnectedHasNoToken | backend/routes/auth.py:118 | after a disconnect a lookup fails with "no access token" and the status is unauthenticated |
| Numbers.FloorDiv | frontend/src/pages/MeetingDetail.jsx:125 | `Math.floor(a / b)`: the quotient rounded down |
| Numbers.TruncDivRem | frontend/src/pages/MeetingDetail.jsx:126-127 | JavaScript's `%` keeps the sign of the dividend and rebuilds it with the truncated quotient |
| MeetingDetail.FormatDuration | frontend/src/pages/MeetingDetail.jsx:123-132 | "N/A" exactly for a falsy duration, 0 included |
| MeetingDetail.Decompose | frontend/src/pages/MeetingDetail.jsx:125-127 | for a non-negative count, minutes and seconds are below 60 and 3600·hours + 60·minutes + seconds is the count |
| MeetingDetail.FormatDurationReadsBack | frontend/src/pages/MeetingDetail.jsx:128-131 | a positive count's text reads back as the count, in three parts ("Hh Mm Ss") from an hour on and two ("Mm Ss") below |
| MeetingDetail.ChartLabel | frontend/src/pages/MeetingDetail.jsx:151 | `user_name`, else `user_email`, else "Unknown"; never empty |
| MeetingDetail.Timed | frontend/src/pages/MeetingDetail.jsx:149 | exactly the participants with a truthy duration |
| MeetingDetail.ToEntry | frontend/src/pages/MeetingDetail.jsx:150-153 | the bar's minutes are the duration rounded down to whole minutes |
| MeetingDetail.Entries | frontend/src/pages/MeetingDetail.jsx:150-153 | one bar per participant, in order |
| MeetingDetail.LongestFirstIsTotal | frontend/src/pages/MeetingDetail.jsx:154 | the comparator orders by non-increasing minutes, a total preorder |
| MeetingDetail.RankedEntries | frontend/src/pages/MeetingDetail.jsx:148-154 | the bars, longest first, a permutation of the mapped participants |
| MeetingDetail.ChartData | frontend/src/pages/MeetingDetail.jsx:147-155 | at most ten bars |
| MeetingDetail.ChartDataShape | frontend/src/pages/MeetingDetail.jsx:147-155 | min(10, n) bars for the n timed participants, longest first, each built from one of them |
| MeetingDetail.ChartDataIsTop | frontend/src/pages/MeetingDetail.jsx:154-155 | a bar left off is no longer than any bar shown; with at most ten timed participants all are shown |
| MeetingDetail.ChartOrderIsStable | frontend/src/pages/MeetingDetail.jsx:154 | bars of equal length keep the participants' order |
| Dashboard.FormatDuration | frontend/src/pages/Dashboard.jsx:127-135 | "N/A" exactly for a falsy duration, 0 included |
| Dashboard.RoundsDownToMinute | frontend/src/pages/Dashboard.jsx:129-130 | minutes stay below 60, and 3600·hours + 60·minutes ≤ s < 3600·hours + 60·minutes + 60 |
| Dashboard.FormatDurationReadsBack | frontend/src/pages/Dashboard.jsx:131-134 | a positive count's text reads back as the count less its seconds past the minute: "Hh Mm" from an hour on, "Mm" below |
| Dashboard.DashboardDropsSeconds | frontend/src/pages/Dashboard.jsx:127-135 | the detail page's text is the dashboard's followed by the seconds, and both show "N/A" for the same inputs |

## Left out

- HTTP transport is not modelled: the OAuth token POSTs, `make_request`, and the streamed download loop. Each reply is a `Result` parameter (status and body text, or another failure).
- `make_request` looks up an access token before each request. The fetches here take their reply as given and do not run that lookup, so a refresh during a sync is not modelled.
- HMAC-SHA256, hex encoding and `compare_digest` are one opaque function parameter. Timing-safe comparison is not modelled.
- `datetime.fromisoformat` is an opaque parser parameter. The model includes the `Z` → `+00:00` rewrite in front of it.
- File system effects are not modelled: `mkdir` of the data and recordings directories, the engine and the session factory.
- The API is called with `now`, one value per request. Two `utcnow()` calls in one request are not distinguished.
- Failures inside a handler are modelled. Exceptions the framework raises outside them are not: a missing `code` query parameter (422), a null `host`, `payload` or `object`, which would raise. Those values are read as missing.
- A token reply missing `access_token` or `expires_in` raises `KeyError`. It is modelled as one `Failure` of the exchange.
- Auth.DisconnectZoom: the rollback on a failed delete is not modelled, because the in-memory delete cannot fail.
- The SQL `avg` is a real number, not a float. `float(avg) if avg else 0` coincides with it, since a zero average is 0 either way.
- Token rows are ordered by insertion, so the last row is the newest. Two rows created in the same microsecond, whose `ORDER BY created_at DESC` order SQL leaves open, are not modelled.
- Raw (unparsed) timestamp strings sort after parsed ones in the join-time order. SQLite's `DateTime` column, which rejects such strings at commit, is not modelled; the webhook handlers store them as they arrive.
- Foreign keys from participants and recordings to meetings are not enforced, as in SQLite without `PRAGMA foreign_keys`.
- The ISO rendering (`isoformat()`) of the detail query's times is not modelled. The query returns the rows themselves.
- `get_meeting_recordings` of the meeting service (an ordered select) and `get_meeting_details` of the Zoom client are not part of this model. Neither is used by the core operations.
- `limit` and `offset` are natural numbers. Negative values, which SQLite reads as "no limit", are not modelled.
- Auth.AuthUrlQuery: holds only when neither value contains `&`, because the values are not percent-encoded. A redirect URI with its own query string would corrupt the authorization URL.
- React rendering, hooks, alerts, timers, `formatDate` and the API client of the two pages are not modelled.
- MeetingSync.StoreParticipants: each returned row is the row as its own store left it. The session's identity map returns one shared object per key, so a key repeated within one fetch shows its final row in every entry. `MeetingSync.ReturnedParticipantsAreFinal` proves the two agree whenever each key occurs once.
- MeetingSync.StoreRecordings: an id repeated within one fetch is likewise not modelled as one shared object; `MeetingSync.ReturnedRecordingsAreFinal` proves agreement when each id occurs once.
- MeetingService.DurationUpdate: subtracting a naive time from a timezone-aware one raises `TypeError`. The parser parameter yields instants without an offset kind, so this failure is not modelled.
- Database.ExtractDbPath: its ensures leave the choice open inside a run of more slashes than the separator. For `sqlite:////abs.db` the left-to-right split gives `/abs.db`, which the body computes and `Database.DbPathOfUrl` proves, but the ensures alone also admit `abs.db`.
- MeetingDetail.FormatDuration: only integer seconds are modelled. The detail page also formats the fractional `avg_duration`, which it receives as a float (90.5 renders as "1m 30.5s").
