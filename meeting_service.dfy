/**
  The write side of the meeting service: timestamp parsing, the keyed upserts of meetings,
  participants and recordings with their partial merge, and the participant duration.

  An update is a patch: one `Field` per column the caller's dictionary may name, `Absent` when
  the dictionary lacks that key. Every key the backend's callers put in these dictionaries is a
  column, so no key is ever skipped by the attribute test.
*/
module MeetingService {
  import opened Wrappers
  import opened Numbers
  import opened Text
  import opened Database
  import opened ZoomService

  /** `datetime.fromisoformat`, left abstract: an instant, or `None` where it would raise. */
  type IsoParser = string -> Option<Instant>

  /** How an operation of the service fails. */
  datatype ServiceError =
    | InvalidTimestamp
    | IntegrityError
    | RecordingUnavailable
    | TransferFailed(cause: ApiError)
    | Provider(cause: ApiError)

  /** The text handed to the ISO parser: every `Z` is read as the UTC offset `+00:00`. */
  function IsoText(s: string): (r: string)
    ensures 'Z' !in r
  {
    ReplaceChar(s, 'Z', "+00:00")
  }

  /** `_parse_datetime`: `None` for a missing or empty string, or one the parser rejects. */
  function ParseDatetime(parse: IsoParser, s: Option<string>): (r: Option<Instant>)
    ensures r.Some? ==> Truthy(s) && parse(IsoText(s.value)) == r
    ensures Truthy(s) ==> r == parse(IsoText(s.value))
  {
    if !Truthy(s) then None else parse(IsoText(s.value))
  }

  /** A trailing `Z` (and only that, in a string without other `Z`s) becomes `+00:00`. */
  lemma ParseTrailingZ(parse: IsoParser, body: string)
    requires 'Z' !in body
    ensures ParseDatetime(parse, Some(body + "Z")) == parse(body + "+00:00")
  {
    ReplaceCharAppend(body, "Z", 'Z', "+00:00");
    ReplaceCharAbsent(body, 'Z', "+00:00");
    assert ReplaceChar("Z", 'Z', "+00:00") == "+00:00" + ReplaceChar("Z"[1..], 'Z', "+00:00");
    assert "Z"[1..] == [];
    assert IsoText(body + "Z") == body + "+00:00";
  }

  // ---------------------------------------------------------------------------------------
  // Meetings

  /** The dictionaries handed to `store_meeting`; `meeting_id` is always given. */
  datatype MeetingPatch = MeetingPatch(
    meetingId: string,
    topic: Field<Option<string>>,
    startTime: Field<Option<Stamp>>,
    endTime: Field<Option<Stamp>>,
    duration: Field<Option<int>>,
    hostEmail: Field<Option<string>>)

  /** An existing meeting takes the patch's keys and a fresh `updated_at`. */
  function MergeMeeting(m: Meeting, p: MeetingPatch, now: Instant): Meeting {
    m.(topic := p.topic.GetOr(m.topic),
       startTime := p.startTime.GetOr(m.startTime),
       endTime := p.endTime.GetOr(m.endTime),
       duration := p.duration.GetOr(m.duration),
       hostEmail := p.hostEmail.GetOr(m.hostEmail),
       updatedAt := now)
  }

  /** A new meeting: the patch's keys, `None` elsewhere, and the column defaults. */
  function NewMeeting(p: MeetingPatch, now: Instant): Meeting {
    Meeting(p.meetingId, p.topic.GetOr(None), p.startTime.GetOr(None), p.endTime.GetOr(None),
            p.duration.GetOr(None), DefaultParticipantCount, p.hostEmail.GetOr(None), now, now)
  }

  /** `store_meeting` on the table: the row under `meeting_id` is merged into, or created. */
  function UpsertMeeting(meetings: map<string, Meeting>, p: MeetingPatch, now: Instant)
    : (r: map<string, Meeting>)
    ensures r.Keys == meetings.Keys + {p.meetingId}
    ensures forall k | k in meetings && k != p.meetingId :: r[k] == meetings[k]
    ensures MeetingsKeyed(meetings) ==> MeetingsKeyed(r)
    ensures r[p.meetingId].updatedAt == now
  {
    meetings[p.meetingId := if p.meetingId in meetings then MergeMeeting(meetings[p.meetingId], p, now)
                            else NewMeeting(p, now)]
  }

  /**
    The merge: a column named by the patch takes the patch's value, every other column keeps its
    value (or its default in a new row); `created_at` and `participant_count` are never written.
  */
  lemma UpsertMeetingMerge(meetings: map<string, Meeting>, p: MeetingPatch, now: Instant)
    requires MeetingsKeyed(meetings)
    ensures var row := UpsertMeeting(meetings, p, now)[p.meetingId];
      var before := if p.meetingId in meetings then meetings[p.meetingId] else NewMeeting(p, now);
      && row.meetingId == p.meetingId
      && (p.topic.Present? ==> row.topic == p.topic.value)
      && (p.topic.Absent? ==> row.topic == before.topic)
      && (p.startTime.Present? ==> row.startTime == p.startTime.value)
      && (p.startTime.Absent? ==> row.startTime == before.startTime)
      && (p.endTime.Present? ==> row.endTime == p.endTime.value)
      && (p.endTime.Absent? ==> row.endTime == before.endTime)
      && (p.duration.Present? ==> row.duration == p.duration.value)
      && (p.duration.Absent? ==> row.duration == before.duration)
      && (p.hostEmail.Present? ==> row.hostEmail == p.hostEmail.value)
      && (p.hostEmail.Absent? ==> row.hostEmail == before.hostEmail)
      && row.createdAt == before.createdAt
      && row.participantCount == before.participantCount
  {}

  /** Storing the same meeting dictionary twice at the same moment is the same as storing it once. */
  lemma UpsertMeetingIdempotent(meetings: map<string, Meeting>, p: MeetingPatch, now: Instant)
    ensures UpsertMeeting(UpsertMeeting(meetings, p, now), p, now) == UpsertMeeting(meetings, p, now)
  {
    var once := UpsertMeeting(meetings, p, now);
    assert MergeMeeting(once[p.meetingId], p, now) == once[p.meetingId];
  }

  /** Upserts of different meetings do not interfere: their order does not matter. */
  lemma UpsertMeetingsCommute(meetings: map<string, Meeting>, p: MeetingPatch, q: MeetingPatch, now: Instant, later: Instant)
    requires p.meetingId != q.meetingId
    ensures UpsertMeeting(UpsertMeeting(meetings, p, now), q, later)
         == UpsertMeeting(UpsertMeeting(meetings, q, later), p, now)
  {
    var a := UpsertMeeting(meetings, p, now)[p.meetingId];
    var b := UpsertMeeting(meetings, q, later)[q.meetingId];
    UpsertIsUpdate(meetings, p, now);
    UpsertIsUpdate(meetings, q, later);
    UpsertBesides(meetings, p.meetingId, a, q, later);
    UpsertBesides(meetings, q.meetingId, b, p, now);
    SwapUpdates(meetings, p.meetingId, a, q.meetingId, b);
  }

  lemma UpsertIsUpdate(meetings: map<string, Meeting>, p: MeetingPatch, now: Instant)
    ensures UpsertMeeting(meetings, p, now) == meetings[p.meetingId := UpsertMeeting(meetings, p, now)[p.meetingId]]
  {}

  /** Upserting is unaffected by a change to another row. */
  lemma UpsertBesides(meetings: map<string, Meeting>, k: string, v: Meeting, p: MeetingPatch, now: Instant)
    requires k != p.meetingId
    ensures UpsertMeeting(meetings[k := v], p, now) == UpsertMeeting(meetings, p, now)[k := v]
  {
    assert (p.meetingId in meetings[k := v]) == (p.meetingId in meetings);
    assert p.meetingId in meetings ==> meetings[k := v][p.meetingId] == meetings[p.meetingId];
  }

  lemma SwapUpdates<K, V>(m: map<K, V>, k1: K, v1: V, k2: K, v2: V)
    requires k1 != k2
    ensures m[k1 := v1][k2 := v2] == m[k2 := v2][k1 := v1]
  {}

  /** `store_meeting` on the store: returns the stored row. */
  method StoreMeeting(db: Store, p: MeetingPatch, now: Instant) returns (m: Meeting)
    requires db.Valid()
    modifies db`meetings
    ensures db.Valid()
    ensures db.meetings == UpsertMeeting(old(db.meetings), p, now)
    ensures m == db.meetings[p.meetingId]
  {
    if p.meetingId in db.meetings {
      m := MergeMeeting(db.meetings[p.meetingId], p, now);
    } else {
      m := NewMeeting(p, now);
    }
    db.meetings := db.meetings[p.meetingId := m];
  }

  // ---------------------------------------------------------------------------------------
  // Participants

  /** The dictionaries handed to `store_participant` (they never carry `duration` themselves). */
  datatype ParticipantPatch = ParticipantPatch(
    meetingId: string,
    userId: Field<Option<string>>,
    userName: Field<Option<string>>,
    userEmail: Field<Option<string>>,
    joinTime: Field<Option<Stamp>>,
    leaveTime: Field<Option<Stamp>>,
    device: Field<Option<string>>,
    ipAddress: Field<Option<string>>,
    location: Field<Option<string>>)
  {
    /** The row the lookup finds: same meeting and same user id (`IS NULL` when there is none). */
    function Key(): ParticipantKey {
      (meetingId, userId.GetOr(None))
    }
  }

  /** Python truthiness of a timestamp value: a parsed time always, a raw string when non-empty. */
  predicate StampTruthy(s: Option<Stamp>) {
    s.Some? && (s.value.At? || s.value.text != "")
  }

  /** A raw string is parsed as it is in `store_participant`; a parsed time is taken as is. */
  function StampInstant(parse: IsoParser, s: Stamp): Option<Instant> {
    match s
    case At(t) => Some(t)
    case Raw(text) => parse(IsoText(text))
  }

  /** `int((leave - join).total_seconds())`: whole seconds, truncated toward zero, never clamped. */
  function ElapsedSeconds(join: Instant, leave: Instant): (d: int)
    ensures leave >= join ==> d >= 0 && d * MicrosPerSecond <= leave - join < (d + 1) * MicrosPerSecond
    ensures leave < join ==> d <= 0 && (d - 1) * MicrosPerSecond < leave - join <= d * MicrosPerSecond
  {
    TruncDivRem(leave - join, MicrosPerSecond);
    TruncDiv(leave - join, MicrosPerSecond)
  }

  /**
    The duration a participant update writes: computed from the patch's own join and leave times
    when it has both, otherwise not written at all. A raw string the parser rejects is an error.
  */
  function DurationUpdate(parse: IsoParser, p: ParticipantPatch): (r: Result<Field<Option<int>>, ServiceError>)
    ensures !(StampTruthy(p.joinTime.GetOr(None)) && StampTruthy(p.leaveTime.GetOr(None))) ==> r == Ok(Absent)
    ensures r == Ok(Absent) || r == Err(InvalidTimestamp) || (r.Ok? && r.value.Present? && r.value.value.Some?)
  {
    var join, leave := p.joinTime.GetOr(None), p.leaveTime.GetOr(None);
    if StampTruthy(join) && StampTruthy(leave) then
      match (StampInstant(parse, join.value), StampInstant(parse, leave.value))
      case (Some(j), Some(l)) => Ok(Present(Some(ElapsedSeconds(j, l))))
      case _ => Err(InvalidTimestamp)
    else Ok(Absent)
  }

  function MergeParticipant(row: Participant, p: ParticipantPatch, duration: Field<Option<int>>): Participant {
    row.(userName := p.userName.GetOr(row.userName),
         userEmail := p.userEmail.GetOr(row.userEmail),
         joinTime := p.joinTime.GetOr(row.joinTime),
         leaveTime := p.leaveTime.GetOr(row.leaveTime),
         duration := duration.GetOr(row.duration),
         device := p.device.GetOr(row.device),
         ipAddress := p.ipAddress.GetOr(row.ipAddress),
         location := p.location.GetOr(row.location))
  }

  function NewParticipant(p: ParticipantPatch, duration: Field<Option<int>>, now: Instant): Participant {
    Participant(p.meetingId, p.userId.GetOr(None), p.userName.GetOr(None), p.userEmail.GetOr(None),
                p.joinTime.GetOr(None), p.leaveTime.GetOr(None), duration.GetOr(None),
                p.device.GetOr(None), p.ipAddress.GetOr(None), p.location.GetOr(None), now)
  }

  /**
    `store_participant` on the table: the stored row and the new table, or an error with the
    table unchanged.
  */
  function StoreParticipantStep(
    participants: map<ParticipantKey, Participant>, p: ParticipantPatch, parse: IsoParser, now: Instant)
    : (r: (Result<Participant, ServiceError>, map<ParticipantKey, Participant>))
    ensures r.0.Ok? <==> DurationUpdate(parse, p).Ok?
    ensures r.0.Err? ==> r.1 == participants
    ensures r.0.Ok? ==> r.1 == participants[p.Key() := r.0.value]
    ensures r.0.Ok? && ParticipantsKeyed(participants) ==> r.0.value.Key() == p.Key()
    ensures r.0.Ok? ==> r.0.value.createdAt == (if p.Key() in participants then participants[p.Key()].createdAt else now)
    ensures r.0.Ok? && ParticipantsKeyed(participants) ==> ParticipantsKeyed(r.1)
  {
    match DurationUpdate(parse, p)
    case Err(e) => (Err(e), participants)
    case Ok(duration) =>
      var k := p.Key();
      var row := if k in participants then MergeParticipant(participants[k], p, duration)
                 else NewParticipant(p, duration, now);
      (Ok(row), participants[k := row])
  }

  /** A stored duration changes only when the patch itself carries both a join and a leave time. */
  lemma DurationNeedsBothTimes(
    participants: map<ParticipantKey, Participant>, p: ParticipantPatch, parse: IsoParser, now: Instant)
    requires !(StampTruthy(p.joinTime.GetOr(None)) && StampTruthy(p.leaveTime.GetOr(None)))
    ensures var (r, after) := StoreParticipantStep(participants, p, parse, now);
      && r.Ok?
      && r.value.duration == (if p.Key() in participants then participants[p.Key()].duration else None)
  {}

  /**
    With both times in the patch the duration is the elapsed whole seconds between them,
    negative when the leave time comes first.
  */
  lemma DurationFromTimes(
    participants: map<ParticipantKey, Participant>, p: ParticipantPatch, parse: IsoParser, now: Instant,
    join: Instant, leave: Instant)
    requires p.joinTime == Present(Some(At(join))) && p.leaveTime == Present(Some(At(leave)))
    ensures var (r, after) := StoreParticipantStep(participants, p, parse, now);
      && r.Ok?
      && r.value.duration == Some(ElapsedSeconds(join, leave))
      && (leave < join ==> r.value.duration.value <= 0)
  {}

  /** A raw time the parser rejects makes the whole update fail, leaving the table as it was. */
  lemma UnparseableTimeFails(
    participants: map<ParticipantKey, Participant>, p: ParticipantPatch, parse: IsoParser, now: Instant, text: string)
    requires p.joinTime == Present(Some(Raw(text))) && text != "" && parse(IsoText(text)).None?
    requires StampTruthy(p.leaveTime.GetOr(None))
    ensures StoreParticipantStep(participants, p, parse, now) == (Err(InvalidTimestamp), participants)
  {}

  /**
    An existing participant: a column named by the patch takes the patch's value, every other
    column keeps its stored value; the duration is written only when the update computes one.
  */
  lemma ParticipantMerge(
    participants: map<ParticipantKey, Participant>, p: ParticipantPatch, parse: IsoParser, now: Instant)
    requires ParticipantsKeyed(participants) && p.Key() in participants
    requires StoreParticipantStep(participants, p, parse, now).0.Ok?
    ensures var before, row := participants[p.Key()], StoreParticipantStep(participants, p, parse, now).0.value;
      var duration := DurationUpdate(parse, p).value;
      && row.meetingId == before.meetingId && row.userId == before.userId && row.createdAt == before.createdAt
      && (p.userName.Present? ==> row.userName == p.userName.value)
      && (p.userName.Absent? ==> row.userName == before.userName)
      && (p.userEmail.Present? ==> row.userEmail == p.userEmail.value)
      && (p.userEmail.Absent? ==> row.userEmail == before.userEmail)
      && (p.joinTime.Present? ==> row.joinTime == p.joinTime.value)
      && (p.joinTime.Absent? ==> row.joinTime == before.joinTime)
      && (p.leaveTime.Present? ==> row.leaveTime == p.leaveTime.value)
      && (p.leaveTime.Absent? ==> row.leaveTime == before.leaveTime)
      && (duration.Present? ==> row.duration == duration.value)
      && (duration.Absent? ==> row.duration == before.duration)
      && (p.device.Present? ==> row.device == p.device.value)
      && (p.device.Absent? ==> row.device == before.device)
      && (p.ipAddress.Present? ==> row.ipAddress == p.ipAddress.value)
      && (p.ipAddress.Absent? ==> row.ipAddress == before.ipAddress)
      && (p.location.Present? ==> row.location == p.location.value)
      && (p.location.Absent? ==> row.location == before.location)
  {}

  /**
    A new participant: the columns the patch names, `None` in every other column, the computed
    duration if any, and `created_at` set to the moment of the insert.
  */
  lemma ParticipantInsert(
    participants: map<ParticipantKey, Participant>, p: ParticipantPatch, parse: IsoParser, now: Instant)
    requires p.Key() !in participants
    requires StoreParticipantStep(participants, p, parse, now).0.Ok?
    ensures var row := StoreParticipantStep(participants, p, parse, now).0.value;
      var duration := DurationUpdate(parse, p).value;
      && row.meetingId == p.meetingId && row.createdAt == now
      && (p.userId.Present? ==> row.userId == p.userId.value)
      && (p.userId.Absent? ==> row.userId == None)
      && (p.userName.Present? ==> row.userName == p.userName.value)
      && (p.userName.Absent? ==> row.userName == None)
      && (p.userEmail.Present? ==> row.userEmail == p.userEmail.value)
      && (p.userEmail.Absent? ==> row.userEmail == None)
      && (p.joinTime.Present? ==> row.joinTime == p.joinTime.value)
      && (p.joinTime.Absent? ==> row.joinTime == None)
      && (p.leaveTime.Present? ==> row.leaveTime == p.leaveTime.value)
      && (p.leaveTime.Absent? ==> row.leaveTime == None)
      && (duration.Present? ==> row.duration == duration.value)
      && (duration.Absent? ==> row.duration == None)
      && (p.device.Present? ==> row.device == p.device.value)
      && (p.device.Absent? ==> row.device == None)
      && (p.ipAddress.Present? ==> row.ipAddress == p.ipAddress.value)
      && (p.ipAddress.Absent? ==> row.ipAddress == None)
      && (p.location.Present? ==> row.location == p.location.value)
      && (p.location.Absent? ==> row.location == None)
  {}

  /** `store_participant` on the store. */
  method StoreParticipant(db: Store, p: ParticipantPatch, parse: IsoParser, now: Instant)
    returns (r: Result<Participant, ServiceError>)
    requires db.Valid()
    modifies db`participants
    ensures db.Valid()
    ensures (r, db.participants) == StoreParticipantStep(old(db.participants), p, parse, now)
  {
    var duration := DurationUpdate(parse, p);
    if duration.Err? {
      return Err(duration.error);
    }
    var k := p.Key();
    var row;
    if k in db.participants {
      row := MergeParticipant(db.participants[k], p, duration.value);
    } else {
      row := NewParticipant(p, duration.value, now);
    }
    db.participants := db.participants[k := row];
    r := Ok(row);
  }

  // ---------------------------------------------------------------------------------------
  // Recordings

  /** The dictionaries handed to `store_recording`; `recording_id` may be `None`. */
  datatype RecordingPatch = RecordingPatch(
    meetingId: string,
    recordingId: Option<string>,
    recordingType: Field<Option<string>>,
    fileSize: Field<Option<int>>,
    fileType: Field<Option<string>>,
    downloadUrl: Field<Option<string>>,
    playUrl: Field<Option<string>>,
    recordingStart: Field<Option<Stamp>>,
    recordingEnd: Field<Option<Stamp>>,
    filePath: Field<Option<string>>,
    status: Field<RecordingStatus>)

  function MergeRecording(row: Recording, p: RecordingPatch): Recording {
    row.(meetingId := p.meetingId,
         recordingType := p.recordingType.GetOr(row.recordingType),
         fileSize := p.fileSize.GetOr(row.fileSize),
         fileType := p.fileType.GetOr(row.fileType),
         downloadUrl := p.downloadUrl.GetOr(row.downloadUrl),
         playUrl := p.playUrl.GetOr(row.playUrl),
         recordingStart := p.recordingStart.GetOr(row.recordingStart),
         recordingEnd := p.recordingEnd.GetOr(row.recordingEnd),
         filePath := p.filePath.GetOr(row.filePath),
         status := p.status.GetOr(row.status))
  }

  function NewRecording(p: RecordingPatch, id: string, now: Instant): Recording {
    Recording(p.meetingId, id, p.recordingType.GetOr(None), p.fileSize.GetOr(None),
              p.fileType.GetOr(None), p.downloadUrl.GetOr(None), p.playUrl.GetOr(None),
              p.recordingStart.GetOr(None), p.recordingEnd.GetOr(None), p.filePath.GetOr(None),
              p.status.GetOr(DefaultRecordingStatus), now)
  }

  /**
    `store_recording` on the table. Without a recording id no row matches and the insert breaks
    the non-null constraint, so the table is left as it was.
  */
  function StoreRecordingStep(recordings: map<string, Recording>, p: RecordingPatch, now: Instant)
    : (r: (Result<Recording, ServiceError>, map<string, Recording>))
    ensures r.0.Err? <==> p.recordingId.None?
    ensures r.0.Err? ==> r.0.error == IntegrityError && r.1 == recordings
    ensures r.0.Ok? ==> r.1 == recordings[p.recordingId.value := r.0.value]
    ensures r.0.Ok? ==> r.0.value.meetingId == p.meetingId
    ensures r.0.Ok? && RecordingsKeyed(recordings) ==> RecordingsKeyed(r.1)
  {
    match p.recordingId
    case None => (Err(IntegrityError), recordings)
    case Some(id) =>
      var row := if id in recordings then MergeRecording(recordings[id], p) else NewRecording(p, id, now);
      (Ok(row), recordings[id := row])
  }

  /**
    An existing recording: it moves to the patch's meeting, a column named by the patch takes the
    patch's value, every other column keeps its stored value, and the id and `created_at` stay.
  */
  lemma RecordingMerge(recordings: map<string, Recording>, p: RecordingPatch, now: Instant)
    requires p.recordingId.Some? && p.recordingId.value in recordings
    ensures var before, row := recordings[p.recordingId.value], StoreRecordingStep(recordings, p, now).0.value;
      && row.meetingId == p.meetingId
      && row.recordingId == before.recordingId && row.createdAt == before.createdAt
      && (p.recordingType.Present? ==> row.recordingType == p.recordingType.value)
      && (p.recordingType.Absent? ==> row.recordingType == before.recordingType)
      && (p.fileSize.Present? ==> row.fileSize == p.fileSize.value)
      && (p.fileSize.Absent? ==> row.fileSize == before.fileSize)
      && (p.fileType.Present? ==> row.fileType == p.fileType.value)
      && (p.fileType.Absent? ==> row.fileType == before.fileType)
      && (p.downloadUrl.Present? ==> row.downloadUrl == p.downloadUrl.value)
      && (p.downloadUrl.Absent? ==> row.downloadUrl == before.downloadUrl)
      && (p.playUrl.Present? ==> row.playUrl == p.playUrl.value)
      && (p.playUrl.Absent? ==> row.playUrl == before.playUrl)
      && (p.recordingStart.Present? ==> row.recordingStart == p.recordingStart.value)
      && (p.recordingStart.Absent? ==> row.recordingStart == before.recordingStart)
      && (p.recordingEnd.Present? ==> row.recordingEnd == p.recordingEnd.value)
      && (p.recordingEnd.Absent? ==> row.recordingEnd == before.recordingEnd)
      && (p.filePath.Present? ==> row.filePath == p.filePath.value)
      && (p.filePath.Absent? ==> row.filePath == before.filePath)
      && (p.status.Present? ==> row.status == p.status.value)
      && (p.status.Absent? ==> row.status == before.status)
  {}

  /**
    A new recording: the patch's meeting and id, the columns the patch names, `None` in every
    other column, status `pending` unless the patch names one, and `created_at` set to now.
  */
  lemma RecordingInsert(recordings: map<string, Recording>, p: RecordingPatch, now: Instant)
    requires p.recordingId.Some? && p.recordingId.value !in recordings
    ensures var row := StoreRecordingStep(recordings, p, now).0.value;
      && row.meetingId == p.meetingId && row.recordingId == p.recordingId.value && row.createdAt == now
      && (p.recordingType.Present? ==> row.recordingType == p.recordingType.value)
      && (p.recordingType.Absent? ==> row.recordingType == None)
      && (p.fileSize.Present? ==> row.fileSize == p.fileSize.value)
      && (p.fileSize.Absent? ==> row.fileSize == None)
      && (p.fileType.Present? ==> row.fileType == p.fileType.value)
      && (p.fileType.Absent? ==> row.fileType == None)
      && (p.downloadUrl.Present? ==> row.downloadUrl == p.downloadUrl.value)
      && (p.downloadUrl.Absent? ==> row.downloadUrl == None)
      && (p.playUrl.Present? ==> row.playUrl == p.playUrl.value)
      && (p.playUrl.Absent? ==> row.playUrl == None)
      && (p.recordingStart.Present? ==> row.recordingStart == p.recordingStart.value)
      && (p.recordingStart.Absent? ==> row.recordingStart == None)
      && (p.recordingEnd.Present? ==> row.recordingEnd == p.recordingEnd.value)
      && (p.recordingEnd.Absent? ==> row.recordingEnd == None)
      && (p.filePath.Present? ==> row.filePath == p.filePath.value)
      && (p.filePath.Absent? ==> row.filePath == None)
      && (p.status.Present? ==> row.status == p.status.value)
      && (p.status.Absent? ==> row.status == Pending)
  {}

  /** `store_recording` on the store. */
  method StoreRecording(db: Store, p: RecordingPatch, now: Instant) returns (r: Result<Recording, ServiceError>)
    requires db.Valid()
    modifies db`recordings
    ensures db.Valid()
    ensures (r, db.recordings) == StoreRecordingStep(old(db.recordings), p, now)
  {
    if p.recordingId.None? {
      return Err(IntegrityError);
    }
    var id := p.recordingId.value;
    var row;
    if id in db.recordings {
      row := MergeRecording(db.recordings[id], p);
    } else {
      row := NewRecording(p, id, now);
    }
    db.recordings := db.recordings[id := row];
    r := Ok(row);
  }
}
