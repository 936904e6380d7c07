/**
  Reconciliation with the provider: the participant and recording syncs, the participant count,
  and the download of a recording file.

  Each sync is a loop over the provider's records that stores one row per record and commits it
  at once, so rows stored before a failure stay. The loops are specified by folds over the
  records (`StoreParticipants`, `StoreRecordings`).
*/
module MeetingSync {
  import opened Wrappers
  import opened Text
  import opened Paths
  import opened Database
  import opened ZoomService
  import opened MeetingService

  /** A parsed time, if any, as the value of a timestamp column. */
  function AsStamp(t: Option<Instant>): (s: Option<Stamp>)
    ensures s.Some? <==> t.Some?
    ensures s.Some? ==> s.value == At(t.value)
  {
    match t
    case None => None
    case Some(i) => Some(At(i))
  }

  /** The device: `device` when non-empty, otherwise the `devices` list joined with ", ". */
  function DeviceOf(d: ProviderParticipant): (r: Option<string>)
    ensures Truthy(d.device) ==> r == d.device
    ensures !Truthy(d.device) && d.devices.Some? ==> r == Some(Join(d.devices.value, ", "))
    ensures !Truthy(d.device) && d.devices.None? ==> r.None?
  {
    if Truthy(d.device) then d.device
    else if d.devices.Some? then Some(Join(d.devices.value, ", "))
    else None
  }

  /** The timestamp columns a patch writes hold parsed times or nothing, never raw strings. */
  predicate StampParsed(f: Field<Option<Stamp>>) {
    f.Present? && (f.value.None? || f.value.value.At?)
  }

  /** The dictionary `sync_meeting_participants` builds from one provider record. */
  function ToParticipantPatch(meetingId: string, d: ProviderParticipant, parse: IsoParser)
    : (p: ParticipantPatch)
    ensures p.meetingId == meetingId && StampParsed(p.joinTime) && StampParsed(p.leaveTime)
    ensures p.userId == Present(if Truthy(d.userId) then d.userId else d.id)
    ensures p.userName == Present(if Truthy(d.name) then d.name else d.userName)
    ensures p.userEmail == Present(if Truthy(d.userEmail) then d.userEmail else d.email)
    ensures p.joinTime.value.Some? <==> ParseDatetime(parse, d.joinTime).Some?
    ensures p.leaveTime.value.Some? <==> ParseDatetime(parse, d.leaveTime).Some?
  {
    ParticipantPatch(
      meetingId,
      Present(Or(d.userId, d.id)),
      Present(Or(d.name, d.userName)),
      Present(Or(d.userEmail, d.email)),
      Present(AsStamp(ParseDatetime(parse, d.joinTime))),
      Present(AsStamp(ParseDatetime(parse, d.leaveTime))),
      Present(DeviceOf(d)),
      Present(d.ipAddress),
      Present(d.location))
  }

  function ParticipantPatches(meetingId: string, data: seq<ProviderParticipant>, parse: IsoParser)
    : (ps: seq<ParticipantPatch>)
    ensures |ps| == |data|
    ensures forall i | 0 <= i < |ps| :: ps[i] == ToParticipantPatch(meetingId, data[i], parse)
  {
    seq(|data|, i requires 0 <= i < |data| => ToParticipantPatch(meetingId, data[i], parse))
  }

  /** Puts the rows stored so far in front of a later outcome; an error stays an error. */
  function Prepend<T>(done: seq<T>, r: Result<seq<T>, ServiceError>): Result<seq<T>, ServiceError> {
    match r
    case Ok(rest) => Ok(done + rest)
    case Err(e) => Err(e)
  }

  /** The outcome of the remaining steps, with the rows already stored in front. */
  function Resume<T, K, V>(done: seq<T>, r: (Result<seq<T>, ServiceError>, map<K, V>))
    : (Result<seq<T>, ServiceError>, map<K, V>)
  {
    (Prepend(done, r.0), r.1)
  }

  lemma ResumeNothing<T, K, V>(r: (Result<seq<T>, ServiceError>, map<K, V>))
    ensures Resume([], r) == r
  {
    if r.0.Ok? {
      assert [] + r.0.value == r.0.value;
    }
  }

  /** Rows stored one by one regroup: the row just stored joins those stored before it. */
  lemma ResumeStep<T, K, V>(done: seq<T>, x: T, r: (Result<seq<T>, ServiceError>, map<K, V>))
    ensures Resume(done, Resume([x], r)) == Resume(done + [x], r)
  {
    if r.0.Ok? {
      assert done + ([x] + r.0.value) == done + [x] + r.0.value;
    }
  }

  /** `store_participant` on each patch in turn, stopping at the first failure. */
  function StoreParticipants(
    participants: map<ParticipantKey, Participant>, patches: seq<ParticipantPatch>,
    parse: IsoParser, now: Instant)
    : (r: (Result<seq<Participant>, ServiceError>, map<ParticipantKey, Participant>))
    ensures r.0.Ok? ==> |r.0.value| == |patches|
    ensures ParticipantsKeyed(participants) ==> ParticipantsKeyed(r.1)
    ensures participants.Keys <= r.1.Keys
    ensures r.0.Ok? ==> forall i | 0 <= i < |patches| :: patches[i].Key() in r.1
    decreases |patches|
  {
    if patches == [] then (Ok([]), participants)
    else
      var (first, next) := StoreParticipantStep(participants, patches[0], parse, now);
      if first.Err? then (Err(first.error), next)
      else
        var (rest, last) := StoreParticipants(next, patches[1..], parse, now);
        assert rest.Ok? ==> forall i | 1 <= i < |patches| :: patches[i] == patches[1..][i - 1];
        (Prepend([first.value], rest), last)
  }

  /** One step of the fold, at position `i` of the patches. */
  lemma StoreParticipantsUnfold(
    participants: map<ParticipantKey, Participant>, patches: seq<ParticipantPatch>, i: nat,
    parse: IsoParser, now: Instant)
    requires i < |patches|
    ensures var (first, next) := StoreParticipantStep(participants, patches[i], parse, now);
      StoreParticipants(participants, patches[i..], parse, now)
        == if first.Err? then (Err(first.error), next)
           else Resume([first.value], StoreParticipants(next, patches[i + 1..], parse, now))
  {
    assert patches[i..][0] == patches[i] && patches[i..][1..] == patches[i + 1..];
  }

  /** The loop's invariant carried over one stored patch, or to the end at a failure. */
  lemma ParticipantsAdvance(
    start: map<ParticipantKey, Participant>, done: seq<Participant>,
    before: map<ParticipantKey, Participant>, patches: seq<ParticipantPatch>, i: nat,
    parse: IsoParser, now: Instant)
    requires i < |patches| && StampParsed(patches[i].joinTime) && StampParsed(patches[i].leaveTime)
    requires StoreParticipants(start, patches, parse, now)
          == Resume(done, StoreParticipants(before, patches[i..], parse, now))
    ensures var (first, next) := StoreParticipantStep(before, patches[i], parse, now);
      && first.Ok?
      && StoreParticipants(start, patches, parse, now)
         == Resume(done + [first.value], StoreParticipants(next, patches[i + 1..], parse, now))
  {
    StoreParticipantsUnfold(before, patches, i, parse, now);
    var (first, next) := StoreParticipantStep(before, patches[i], parse, now);
    ResumeStep(done, first.value, StoreParticipants(next, patches[i + 1..], parse, now));
  }

  /** Patches whose times are all parsed are stored without error. */
  lemma {:induction false} ParsedPatchesStore(
    participants: map<ParticipantKey, Participant>, patches: seq<ParticipantPatch>,
    parse: IsoParser, now: Instant)
    requires forall i | 0 <= i < |patches| :: StampParsed(patches[i].joinTime) && StampParsed(patches[i].leaveTime)
    ensures StoreParticipants(participants, patches, parse, now).0.Ok?
    decreases |patches|
  {
    if patches != [] {
      var next := StoreParticipantStep(participants, patches[0], parse, now).1;
      assert forall i | 0 <= i < |patches| - 1 :: patches[1..][i] == patches[i + 1];
      ParsedPatchesStore(next, patches[1..], parse, now);
    }
  }

  /** Patches for other keys leave a stored row as it was. */
  lemma {:induction false} StoreParticipantsKeeps(
    participants: map<ParticipantKey, Participant>, patches: seq<ParticipantPatch>,
    parse: IsoParser, now: Instant, k: ParticipantKey)
    requires k in participants
    requires forall i | 0 <= i < |patches| :: patches[i].Key() != k
    ensures var after := StoreParticipants(participants, patches, parse, now).1;
      k in after && after[k] == participants[k]
    decreases |patches|
  {
    if patches != [] {
      var next := StoreParticipantStep(participants, patches[0], parse, now).1;
      assert forall i | 0 <= i < |patches| - 1 :: patches[1..][i] == patches[i + 1];
      StoreParticipantsKeeps(next, patches[1..], parse, now, k);
    }
  }

  /**
    When each participant occurs once in the patches, every returned row is the row the table
    holds at the end, which is what the session's identity map hands back.
  */
  lemma {:induction false} ReturnedParticipantsAreFinal(
    participants: map<ParticipantKey, Participant>, patches: seq<ParticipantPatch>,
    parse: IsoParser, now: Instant)
    requires forall i, j | 0 <= i < j < |patches| :: patches[i].Key() != patches[j].Key()
    requires StoreParticipants(participants, patches, parse, now).0.Ok?
    ensures var (r, after) := StoreParticipants(participants, patches, parse, now);
      forall i | 0 <= i < |patches| :: patches[i].Key() in after && after[patches[i].Key()] == r.value[i]
    decreases |patches|
  {
    if patches != [] {
      var next := StoreParticipantStep(participants, patches[0], parse, now).1;
      var tail := patches[1..];
      assert forall i | 0 <= i < |tail| :: tail[i] == patches[i + 1];
      ReturnedParticipantsAreFinal(next, tail, parse, now);
      StoreParticipantsKeeps(next, tail, parse, now, patches[0].Key());
    }
  }

  /** `SELECT count(*) FROM participants WHERE meeting_id = ...`. */
  function CountParticipants(participants: map<ParticipantKey, Participant>, meetingId: string): nat {
    |set k | k in participants && participants[k].meetingId == meetingId|
  }

  /** The meeting, when it exists, records the count and a fresh `updated_at`. */
  function WithParticipantCount(meetings: map<string, Meeting>, meetingId: string, count: nat, now: Instant)
    : (r: map<string, Meeting>)
    ensures r.Keys == meetings.Keys
    ensures forall k | k in meetings && k != meetingId :: r[k] == meetings[k]
    ensures meetingId in meetings ==>
      r[meetingId] == meetings[meetingId].(participantCount := count, updatedAt := now)
    ensures MeetingsKeyed(meetings) ==> MeetingsKeyed(r)
  {
    if meetingId in meetings then
      meetings[meetingId := meetings[meetingId].(participantCount := count, updatedAt := now)]
    else meetings
  }

  /** `update_participant_count`: the count is returned whether or not the meeting exists. */
  method UpdateParticipantCount(db: Store, meetingId: string, now: Instant) returns (count: nat)
    requires db.Valid()
    modifies db`meetings
    ensures db.Valid()
    ensures count == CountParticipants(db.participants, meetingId)
    ensures db.meetings == WithParticipantCount(old(db.meetings), meetingId, count, now)
  {
    count := |set k | k in db.participants && db.participants[k].meetingId == meetingId|;
    if meetingId in db.meetings {
      var meeting := db.meetings[meetingId];
      meeting := meeting.(participantCount := count, updatedAt := now);
      db.meetings := db.meetings[meetingId := meeting];
    }
  }

  /**
    `sync_meeting_participants` on the tables: fetch, store each record, then update the count.
    A 404 or a restricted account yields an empty list; an empty list touches nothing.
  */
  function SyncParticipantsStep(
    t: Tables, meetingId: string, past: Reply, live: Reply, report: Reply, parse: IsoParser, now: Instant)
    : (r: (Result<seq<Participant>, ServiceError>, Tables))
    ensures r.1.recordings == t.recordings && r.1.tokens == t.tokens
    ensures WellKeyed(t) ==> WellKeyed(r.1)
  {
    match GetMeetingParticipants(past, live, report)
    case Err(e) => if Degradable(e) then (Ok([]), t) else (Err(Provider(e)), t)
    case Ok(data) =>
      if data == [] then (Ok([]), t)
      else
        var (stored, participants) :=
          StoreParticipants(t.participants, ParticipantPatches(meetingId, data, parse), parse, now);
        if stored.Err? then (Err(stored.error), t.(participants := participants))
        else
          var count := CountParticipants(participants, meetingId);
          (stored, t.(participants := participants,
                      meetings := WithParticipantCount(t.meetings, meetingId, count, now)))
  }

  /**
    The sync fails exactly when the fetch raises, with the fetch's error and nothing changed:
    storing converted records cannot fail, and the fetch has already absorbed every 404 and
    restricted-account error, so the sync's own fallback for those never fires.
  */
  lemma SyncFailsOnlyWhenFetchFails(
    t: Tables, meetingId: string, past: Reply, live: Reply, report: Reply, parse: IsoParser, now: Instant)
    ensures var (r, after) := SyncParticipantsStep(t, meetingId, past, live, report, parse, now);
      var fetched := GetMeetingParticipants(past, live, report);
      && (r.Err? <==> fetched.Err?)
      && (r.Err? ==> r.error == Provider(fetched.error) && after == t && !Degradable(fetched.error))
  {
    var fetched := GetMeetingParticipants(past, live, report);
    if fetched.Ok? && fetched.value != [] {
      var patches := ParticipantPatches(meetingId, fetched.value, parse);
      ParsedPatchesStore(t.participants, patches, parse, now);
    }
  }

  /**
    After a sync that stored participants, the meeting (when it exists) counts exactly the rows
    filed under it, at least one, and its `updated_at` is the sync's time.
  */
  lemma SyncSetsParticipantCount(
    t: Tables, meetingId: string, past: Reply, live: Reply, report: Reply, parse: IsoParser, now: Instant)
    requires WellKeyed(t)
    requires GetMeetingParticipants(past, live, report).Ok?
    requires GetMeetingParticipants(past, live, report).value != []
    requires meetingId in t.meetings
    ensures var (r, after) := SyncParticipantsStep(t, meetingId, past, live, report, parse, now);
      && r.Ok?
      && |r.value| == |GetMeetingParticipants(past, live, report).value|
      && after.meetings[meetingId].participantCount == CountParticipants(after.participants, meetingId)
      && after.meetings[meetingId].participantCount >= 1
      && after.meetings[meetingId].updatedAt == now
  {
    var data := GetMeetingParticipants(past, live, report).value;
    var patches := ParticipantPatches(meetingId, data, parse);
    ParsedPatchesStore(t.participants, patches, parse, now);
    var (stored, parts) := StoreParticipants(t.participants, patches, parse, now);
    var count := CountParticipants(parts, meetingId);
    assert SyncParticipantsStep(t, meetingId, past, live, report, parse, now)
        == (stored, t.(participants := parts, meetings := WithParticipantCount(t.meetings, meetingId, count, now)));
    CountIncludes(parts, patches[0].Key(), meetingId);
  }

  /** A meeting with a stored participant counts at least one. */
  lemma CountIncludes(participants: map<ParticipantKey, Participant>, k: ParticipantKey, meetingId: string)
    requires ParticipantsKeyed(participants) && k in participants && k.0 == meetingId
    ensures CountParticipants(participants, meetingId) >= 1
  {
    assert participants[k].Key() == k;
    var filed := set j | j in participants && participants[j].meetingId == meetingId;
    assert {k} <= filed;
  }

  /** An empty provider list returns nothing and leaves every table as it was. */
  lemma EmptyFetchChangesNothing(
    t: Tables, meetingId: string, past: Reply, live: Reply, report: Reply, parse: IsoParser, now: Instant)
    requires GetMeetingParticipants(past, live, report) == Ok([])
    ensures SyncParticipantsStep(t, meetingId, past, live, report, parse, now) == (Ok([]), t)
  {}

  /** A fetch that lists records and stores them all ends with the count updated. */
  lemma SyncParticipantsStored(
    t: Tables, meetingId: string, past: Reply, live: Reply, report: Reply, parse: IsoParser, now: Instant,
    rows: seq<Participant>, participants: map<ParticipantKey, Participant>)
    requires GetMeetingParticipants(past, live, report).Ok?
    requires GetMeetingParticipants(past, live, report).value != []
    requires StoreParticipants(t.participants,
               ParticipantPatches(meetingId, GetMeetingParticipants(past, live, report).value, parse), parse, now)
          == (Ok(rows), participants)
    ensures SyncParticipantsStep(t, meetingId, past, live, report, parse, now)
         == (Ok(rows), t.(participants := participants,
                          meetings := WithParticipantCount(t.meetings, meetingId,
                                                           CountParticipants(participants, meetingId), now)))
  {}

  /** `sync_meeting_participants` on the store. */
  method SyncMeetingParticipants(
    db: Store, meetingId: string, past: Reply, live: Reply, report: Reply, parse: IsoParser, now: Instant)
    returns (r: Result<seq<Participant>, ServiceError>)
    requires db.Valid()
    modifies db`participants, db`meetings
    ensures db.Valid()
    ensures (r, db.Snapshot()) == SyncParticipantsStep(old(db.Snapshot()), meetingId, past, live, report, parse, now)
  {
    var fetched := GetMeetingParticipants(past, live, report);
    if fetched.Err? {
      var e := fetched.error;
      if (e.StatusError? && e.status == 404) || Restricted(e) {
        return Ok([]);
      }
      return Err(Provider(e));
    }
    var data := fetched.value;
    if |data| == 0 {
      return Ok([]);
    }
    ghost var patches := ParticipantPatches(meetingId, data, parse);
    ghost var start := db.participants;
    var participants: seq<Participant> := [];
    var i := 0;
    assert patches[i..] == patches;
    ResumeNothing(StoreParticipants(start, patches, parse, now));
    while i < |data|
      invariant 0 <= i <= |data|
      invariant db.Valid()
      invariant db.meetings == old(db.meetings)
      invariant StoreParticipants(start, patches, parse, now)
             == Resume(participants, StoreParticipants(db.participants, patches[i..], parse, now))
    {
      var patch := ToParticipantPatch(meetingId, data[i], parse);
      ParticipantsAdvance(start, participants, db.participants, patches, i, parse, now);
      var stored := StoreParticipant(db, patch, parse, now);
      // The patch holds parsed times only, so storing it cannot fail.
      assert stored.Ok?;
      participants := participants + [stored.value];
      i := i + 1;
    }
    assert patches[i..] == [] && participants + [] == participants;
    SyncParticipantsStored(old(db.Snapshot()), meetingId, past, live, report, parse, now, participants, db.participants);
    var count := UpdateParticipantCount(db, meetingId, now);
    r := Ok(participants);
  }

  // ---------------------------------------------------------------------------------------
  // Recordings

  /** The dictionary `sync_meeting_recordings` builds: always pending, with no local file. */
  function ToRecordingPatch(meetingId: string, f: ProviderRecording, parse: IsoParser): (p: RecordingPatch)
    ensures p.meetingId == meetingId && p.recordingId == f.id
    ensures p.status == Present(Pending) && p.filePath == Present(None)
  {
    RecordingPatch(
      meetingId, f.id,
      Present(f.recordingType), Present(f.fileSize), Present(f.fileType),
      Present(f.downloadUrl), Present(f.playUrl),
      Present(AsStamp(ParseDatetime(parse, f.recordingStart))),
      Present(AsStamp(ParseDatetime(parse, f.recordingEnd))),
      Present(None), Present(Pending))
  }

  function RecordingPatches(meetingId: string, files: seq<ProviderRecording>, parse: IsoParser)
    : (ps: seq<RecordingPatch>)
    ensures |ps| == |files|
    ensures forall i | 0 <= i < |ps| :: ps[i] == ToRecordingPatch(meetingId, files[i], parse)
  {
    seq(|files|, i requires 0 <= i < |files| => ToRecordingPatch(meetingId, files[i], parse))
  }

  /** `store_recording` on each patch in turn, stopping at the first failure. */
  function StoreRecordings(recordings: map<string, Recording>, patches: seq<RecordingPatch>, now: Instant)
    : (r: (Result<seq<Recording>, ServiceError>, map<string, Recording>))
    ensures r.0.Ok? ==> |r.0.value| == |patches|
    ensures RecordingsKeyed(recordings) ==> RecordingsKeyed(r.1)
    decreases |patches|
  {
    if patches == [] then (Ok([]), recordings)
    else
      var (first, next) := StoreRecordingStep(recordings, patches[0], now);
      if first.Err? then (Err(first.error), next)
      else
        var (rest, last) := StoreRecordings(next, patches[1..], now);
        (Prepend([first.value], rest), last)
  }

  /** One step of the fold, at position `i` of the patches. */
  lemma StoreRecordingsUnfold(recordings: map<string, Recording>, patches: seq<RecordingPatch>, i: nat, now: Instant)
    requires i < |patches|
    ensures var (first, next) := StoreRecordingStep(recordings, patches[i], now);
      StoreRecordings(recordings, patches[i..], now)
        == if first.Err? then (Err(first.error), next)
           else Resume([first.value], StoreRecordings(next, patches[i + 1..], now))
  {
    assert patches[i..][0] == patches[i] && patches[i..][1..] == patches[i + 1..];
  }

  /** The loop's invariant carried over one stored patch, or to the end at a failure. */
  lemma RecordingsAdvance(
    start: map<string, Recording>, done: seq<Recording>,
    before: map<string, Recording>, patches: seq<RecordingPatch>, i: nat, now: Instant)
    requires i < |patches|
    requires StoreRecordings(start, patches, now) == Resume(done, StoreRecordings(before, patches[i..], now))
    ensures var (first, next) := StoreRecordingStep(before, patches[i], now);
      && (first.Err? ==> StoreRecordings(start, patches, now) == (Err(first.error), next))
      && (first.Ok? ==>
            StoreRecordings(start, patches, now)
            == Resume(done + [first.value], StoreRecordings(next, patches[i + 1..], now)))
  {
    StoreRecordingsUnfold(before, patches, i, now);
    var (first, next) := StoreRecordingStep(before, patches[i], now);
    if first.Ok? {
      ResumeStep(done, first.value, StoreRecordings(next, patches[i + 1..], now));
    }
  }

  /** Patches for other recording ids leave a stored row as it was. */
  lemma {:induction false} StoreRecordingsKeeps(
    recordings: map<string, Recording>, patches: seq<RecordingPatch>, now: Instant, id: string)
    requires id in recordings
    requires forall i | 0 <= i < |patches| :: patches[i].recordingId != Some(id)
    ensures var after := StoreRecordings(recordings, patches, now).1;
      id in after && after[id] == recordings[id]
    decreases |patches|
  {
    if patches != [] {
      var next := StoreRecordingStep(recordings, patches[0], now).1;
      assert forall i | 0 <= i < |patches| - 1 :: patches[1..][i] == patches[i + 1];
      StoreRecordingsKeeps(next, patches[1..], now, id);
    }
  }

  /**
    When each recording id occurs once in the patches, every returned row is the row the table
    holds at the end, which is what the session's identity map hands back.
  */
  lemma {:induction false} ReturnedRecordingsAreFinal(
    recordings: map<string, Recording>, patches: seq<RecordingPatch>, now: Instant)
    requires forall i, j | 0 <= i < j < |patches| :: patches[i].recordingId != patches[j].recordingId
    requires StoreRecordings(recordings, patches, now).0.Ok?
    ensures var (r, after) := StoreRecordings(recordings, patches, now);
      forall i | 0 <= i < |patches| ::
        patches[i].recordingId.Some? && patches[i].recordingId.value in after
        && after[patches[i].recordingId.value] == r.value[i]
    decreases |patches|
  {
    if patches != [] {
      var next := StoreRecordingStep(recordings, patches[0], now).1;
      var tail := patches[1..];
      assert forall i | 0 <= i < |tail| :: tail[i] == patches[i + 1];
      ReturnedRecordingsAreFinal(next, tail, now);
      StoreRecordingsKeeps(next, tail, now, patches[0].recordingId.value);
    }
  }

  /** `sync_meeting_recordings` on the tables. */
  function SyncRecordingsStep(t: Tables, meetingId: string, reply: Reply, parse: IsoParser, now: Instant)
    : (r: (Result<seq<Recording>, ServiceError>, Tables))
    ensures r.1.meetings == t.meetings && r.1.participants == t.participants && r.1.tokens == t.tokens
    ensures WellKeyed(t) ==> WellKeyed(r.1)
  {
    match GetMeetingRecordings(reply)
    case Err(e) => (Err(Provider(e)), t)
    case Ok(files) =>
      var (stored, recordings) := StoreRecordings(t.recordings, RecordingPatches(meetingId, files, parse), now);
      (stored, t.(recordings := recordings))
  }

  /**
    A completed recording sync leaves every synced file pending, without a local file and filed
    under the synced meeting, even one that had been downloaded before.
  */
  lemma {:induction false} SyncResetsRecordings(
    recordings: map<string, Recording>, patches: seq<RecordingPatch>, now: Instant, meetingId: string)
    requires forall i | 0 <= i < |patches| ::
      patches[i].meetingId == meetingId && patches[i].status == Present(Pending) && patches[i].filePath == Present(None)
    requires StoreRecordings(recordings, patches, now).0.Ok?
    ensures var after := StoreRecordings(recordings, patches, now).1;
      forall i | 0 <= i < |patches| ::
        && patches[i].recordingId.Some? && patches[i].recordingId.value in after
        && after[patches[i].recordingId.value].status == Pending
        && after[patches[i].recordingId.value].filePath.None?
        && after[patches[i].recordingId.value].meetingId == meetingId
    decreases |patches|
  {
    if patches != [] {
      var next := StoreRecordingStep(recordings, patches[0], now).1;
      assert forall i | 0 <= i < |patches| - 1 :: patches[1..][i] == patches[i + 1];
      SyncResetsRecordings(next, patches[1..], now, meetingId);
      var id := patches[0].recordingId.value;
      assert next[id].status == Pending && next[id].filePath.None? && next[id].meetingId == meetingId;
      KeptPendingRecording(next, patches[1..], now, meetingId, id);
    }
  }

  /** A pending row of the meeting stays so while further files of that meeting are synced. */
  lemma {:induction false} KeptPendingRecording(
    recordings: map<string, Recording>, patches: seq<RecordingPatch>, now: Instant, meetingId: string, id: string)
    requires forall i | 0 <= i < |patches| ::
      patches[i].meetingId == meetingId && patches[i].status == Present(Pending) && patches[i].filePath == Present(None)
    requires id in recordings && recordings[id].status == Pending && recordings[id].filePath.None?
    requires recordings[id].meetingId == meetingId
    requires StoreRecordings(recordings, patches, now).0.Ok?
    ensures var after := StoreRecordings(recordings, patches, now).1;
      id in after && after[id].status == Pending && after[id].filePath.None? && after[id].meetingId == meetingId
    decreases |patches|
  {
    if patches != [] {
      var next := StoreRecordingStep(recordings, patches[0], now).1;
      assert forall i | 0 <= i < |patches| - 1 :: patches[1..][i] == patches[i + 1];
      KeptPendingRecording(next, patches[1..], now, meetingId, id);
    }
  }

  /** The sync of a meeting's recordings resets every file the provider lists. */
  lemma RecordingSyncResets(t: Tables, meetingId: string, reply: Reply, parse: IsoParser, now: Instant)
    requires SyncRecordingsStep(t, meetingId, reply, parse, now).0.Ok?
    requires reply.Ok? && reply.value.recordingFiles.Some?
    ensures var after := SyncRecordingsStep(t, meetingId, reply, parse, now).1;
      forall f | f in reply.value.recordingFiles.value ::
        f.id.Some? && f.id.value in after.recordings
        && after.recordings[f.id.value].status == Pending
        && after.recordings[f.id.value].filePath.None?
  {
    var files := reply.value.recordingFiles.value;
    var patches := RecordingPatches(meetingId, files, parse);
    SyncResetsRecordings(t.recordings, patches, now, meetingId);
    forall f | f in files
      ensures f.id == patches[IndexOf(files, f)].recordingId
    {
      var i := IndexOf(files, f);
    }
  }

  function IndexOf<T(==)>(s: seq<T>, x: T): (i: nat)
    requires x in s
    ensures i < |s| && s[i] == x
  {
    if s[0] == x then 0 else 1 + IndexOf(s[1..], x)
  }

  /**
    A file without an id stops the sync there: the files before it are stored, the failure is an
    integrity error, and nothing after it is stored.
  */
  lemma {:induction false} MissingIdStopsSync(
    recordings: map<string, Recording>, patches: seq<RecordingPatch>, now: Instant, k: nat)
    requires k < |patches| && patches[k].recordingId.None?
    requires forall i | 0 <= i < k :: patches[i].recordingId.Some?
    ensures StoreRecordings(recordings, patches, now).0 == Err(IntegrityError)
    ensures StoreRecordings(recordings, patches, now).1 == StoreRecordings(recordings, patches[..k], now).1
    decreases k
  {
    if k > 0 {
      var next := StoreRecordingStep(recordings, patches[0], now).1;
      assert patches[1..][k - 1] == patches[k];
      assert forall i | 0 <= i < k - 1 :: patches[1..][i] == patches[i + 1];
      MissingIdStopsSync(next, patches[1..], now, k - 1);
      assert patches[..k][0] == patches[0] && patches[..k][1..] == patches[1..][..k - 1];
    }
  }

  /** `sync_meeting_recordings` on the store. */
  method SyncMeetingRecordings(db: Store, meetingId: string, reply: Reply, parse: IsoParser, now: Instant)
    returns (r: Result<seq<Recording>, ServiceError>)
    requires db.Valid()
    modifies db`recordings
    ensures db.Valid()
    ensures (r, db.Snapshot()) == SyncRecordingsStep(old(db.Snapshot()), meetingId, reply, parse, now)
  {
    var fetched := GetMeetingRecordings(reply);
    if fetched.Err? {
      return Err(Provider(fetched.error));
    }
    var files := fetched.value;
    ghost var patches := RecordingPatches(meetingId, files, parse);
    ghost var start := db.recordings;
    var recordings: seq<Recording> := [];
    var i := 0;
    assert patches[i..] == patches;
    ResumeNothing(StoreRecordings(start, patches, now));
    while i < |files|
      invariant 0 <= i <= |files|
      invariant db.Valid()
      invariant StoreRecordings(start, patches, now)
             == Resume(recordings, StoreRecordings(db.recordings, patches[i..], now))
    {
      var patch := ToRecordingPatch(meetingId, files[i], parse);
      RecordingsAdvance(start, recordings, db.recordings, patches, i, now);
      var stored := StoreRecording(db, patch, now);
      if stored.Err? {
        return Err(stored.error);
      }
      recordings := recordings + [stored.value];
      i := i + 1;
    }
    assert patches[i..] == [] && recordings + [] == recordings;
    r := Ok(recordings);
  }

  // ---------------------------------------------------------------------------------------
  // Download

  /** The file extension for a recording's `file_type`. */
  function Extension(fileType: Option<string>): (ext: string)
    ensures ext == "mp4" <==> fileType == Some("MP4")
    ensures ext == "m4a" <==> fileType == Some("M4A")
    ensures ext == "txt" <==> fileType != Some("MP4") && fileType != Some("M4A")
  {
    if fileType == Some("MP4") then "mp4"
    else if fileType == Some("M4A") then "m4a"
    else "txt"
  }

  const RecordingsRoot: string := "recordings"

  /** `os.path.join(os.path.join("recordings", meeting_id), f"{recording_id}.{ext}")`. */
  function RecordingPath(meetingId: string, recordingId: string, fileType: Option<string>): string {
    PathJoin(PathJoin(RecordingsRoot, meetingId), recordingId + "." + Extension(fileType))
  }

  /** For plain ids the file is `recordings/<meeting>/<recording>.<ext>`, in that directory. */
  lemma RecordingPathShape(meetingId: string, recordingId: string, fileType: Option<string>)
    requires meetingId != "" && '/' !in meetingId && '/' !in recordingId
    ensures RecordingPath(meetingId, recordingId, fileType)
         == RecordingsRoot + "/" + meetingId + "/" + recordingId + "." + Extension(fileType)
    ensures DirName(RecordingPath(meetingId, recordingId, fileType)) == RecordingsRoot + "/" + meetingId
  {
    RecordingDirectory(meetingId);
    var ext := Extension(fileType);
    FileInDirectory(RecordingsRoot + "/" + meetingId, recordingId, ext);
  }

  lemma RecordingDirectory(meetingId: string)
    requires meetingId != "" && '/' !in meetingId
    ensures PathJoin(RecordingsRoot, meetingId) == RecordingsRoot + "/" + meetingId
  {
    assert RecordingsRoot[|RecordingsRoot| - 1] == 's';
    JoinPlain(RecordingsRoot, meetingId);
  }

  lemma FileInDirectory(dir: string, name: string, ext: string)
    requires dir != "" && dir[|dir| - 1] != '/' && '/' !in name && ext in {"mp4", "m4a", "txt"}
    ensures PathJoin(dir, name + "." + ext) == dir + "/" + name + "." + ext
    ensures DirName(PathJoin(dir, name + "." + ext)) == dir
  {
    var file := name + "." + ext;
    FileNameHasNoSlash(name, ext);
    JoinPlain(dir, file);
    DirNameOfJoin(dir, file);
  }

  /** Joining a component without slashes onto a directory puts exactly one `/` between them. */
  lemma JoinPlain(a: string, b: string)
    requires a != "" && a[|a| - 1] != '/' && '/' !in b
    ensures PathJoin(a, b) == a + "/" + b
  {
    assert !StartsWith(b, "/") by {
      if |b| >= 1 {
        assert b[..1][0] == b[0];
      }
    }
  }

  lemma FileNameHasNoSlash(name: string, ext: string)
    requires '/' !in name && ext in {"mp4", "m4a", "txt"}
    ensures '/' !in name + "." + ext
  {
    assert '/' !in ext;
  }

  /**
    `download_recording` on the table: the row must belong to the meeting and have a download
    URL; after the transfer its path is recorded and it is marked downloaded. A failed transfer
    leaves the row as it was.
  */
  function DownloadStep(
    recordings: map<string, Recording>, meetingId: string, recordingId: string, transferFailure: Option<ApiError>)
    : (r: (Result<string, ServiceError>, map<string, Recording>))
    ensures r.0.Err? ==> r.1 == recordings
    ensures transferFailure.Some? ==> r.0.Err? && r.1 == recordings
    ensures r.0.Ok? ==> r.1.Keys == recordings.Keys
    ensures RecordingsKeyed(recordings) ==> RecordingsKeyed(r.1)
  {
    if recordingId !in recordings || recordings[recordingId].meetingId != meetingId
       || !Truthy(recordings[recordingId].downloadUrl) then
      (Err(RecordingUnavailable), recordings)
    else
      var row := recordings[recordingId];
      var path := RecordingPath(meetingId, recordingId, row.fileType);
      if transferFailure.Some? then (Err(TransferFailed(transferFailure.value)), recordings)
      else (Ok(path), recordings[recordingId := row.(filePath := Some(path), status := Downloaded)])
  }

  /** Without a matching row or a download URL nothing is fetched and nothing changes. */
  lemma DownloadNeedsUrl(recordings: map<string, Recording>, meetingId: string, recordingId: string, failure: Option<ApiError>)
    ensures DownloadStep(recordings, meetingId, recordingId, failure).0 == Err(RecordingUnavailable)
        <==> recordingId !in recordings || recordings[recordingId].meetingId != meetingId
             || !Truthy(recordings[recordingId].downloadUrl)
  {}

  /**
    A successful download marks exactly that row downloaded with its path; every other column and
    every other row is unchanged.
  */
  lemma DownloadMarksRow(recordings: map<string, Recording>, meetingId: string, recordingId: string)
    requires DownloadStep(recordings, meetingId, recordingId, None).0.Ok?
    ensures var (r, after) := DownloadStep(recordings, meetingId, recordingId, None);
      var before := recordings[recordingId];
      && r.value == RecordingPath(meetingId, recordingId, before.fileType)
      && after[recordingId] == before.(filePath := Some(r.value), status := Downloaded)
      && forall k | k in recordings && k != recordingId :: after[k] == recordings[k]
  {
    var before := recordings[recordingId];
    var path := RecordingPath(meetingId, recordingId, before.fileType);
    assert DownloadStep(recordings, meetingId, recordingId, None)
        == (Ok(path), recordings[recordingId := before.(filePath := Some(path), status := Downloaded)]);
  }

  /** `download_recording` on the store. */
  method DownloadRecording(db: Store, meetingId: string, recordingId: string, transferFailure: Option<ApiError>)
    returns (r: Result<string, ServiceError>)
    requires db.Valid()
    modifies db`recordings
    ensures db.Valid()
    ensures (r, db.recordings) == DownloadStep(old(db.recordings), meetingId, recordingId, transferFailure)
  {
    if recordingId !in db.recordings {
      return Err(RecordingUnavailable);
    }
    var recording := db.recordings[recordingId];
    if recording.meetingId != meetingId || recording.downloadUrl.None? || recording.downloadUrl.value == "" {
      return Err(RecordingUnavailable);
    }
    var recordingsDir := PathJoin(RecordingsRoot, meetingId);
    var filePath := PathJoin(recordingsDir, recordingId + "." + Extension(recording.fileType));
    if transferFailure.Some? {
      return Err(TransferFailed(transferFailure.value));
    }
    recording := recording.(filePath := Some(filePath), status := Downloaded);
    db.recordings := db.recordings[recordingId := recording];
    r := Ok(filePath);
  }
}
