/**
  The provider's webhook endpoint: a signature gate, then a dispatch on the event name to one of
  five handlers, each of which hands a dictionary to the meeting service.

  Each handler is described by the sequence of store operations it performs (`StoreOp`), and
  `RunOps` gives their effect: they run in order, each one commits, and the first failure ends
  the request with the changes made before it kept.
*/
module Webhooks {
  import opened Wrappers
  import opened Numbers
  import opened Text
  import opened Database
  import opened ZoomService
  import opened MeetingService
  import opened MeetingSync

  // ---------------------------------------------------------------------------------------
  // The request

  /** A meeting id as an event carries it: a JSON number or a string. */
  datatype MeetingRef = NumberId(n: int) | TextId(s: string)

  /** `if meeting_id:` — present, and neither 0 nor the empty string. */
  predicate RefTruthy(id: Option<MeetingRef>) {
    id.Some? && match id.value
                case NumberId(n) => n != 0
                case TextId(s) => s != ""
  }

  /** `str(meeting_id)`. */
  function RefText(id: MeetingRef): (s: string)
    ensures id.TextId? ==> s == id.s
    ensures id.NumberId? ==> s == IntToString(id.n)
  {
    match id
    case NumberId(n) => IntToString(n)
    case TextId(s) => s
  }

  /**
    The `participant` object of an event. `keyCount` is the number of keys it has, including
    those whose value is null: that, not the values, decides its truthiness.
  */
  datatype EventParticipant = EventParticipant(
    keyCount: nat,
    userId: Option<string>,
    userName: Option<string>,
    email: Option<string>,
    ipAddress: Option<string>,
    location: Option<string>)

  /**
    `payload.object` of an event, with each key as `.get` reads it; a missing object reads as
    one without keys.
  */
  datatype EventObject = EventObject(
    id: Option<MeetingRef>,
    topic: Option<string>,
    startTime: Option<string>,
    endTime: Option<string>,
    hostEmail: Option<string>,
    joinTime: Option<string>,
    leaveTime: Option<string>,
    participant: Option<EventParticipant>)

  datatype WebhookPayload = WebhookPayload(event: Option<string>, data: EventObject)

  /** The raw body, the `x-zoom-signature` header, and the body read as JSON (`None` if it is not). */
  datatype WebhookRequest = WebhookRequest(body: seq<bv8>, signature: Option<string>, json: Option<WebhookPayload>)

  /** The lower-case hex digest of HMAC-SHA256 keyed with the secret over the body. */
  type HmacHex = (string, seq<bv8>) -> string

  /** `verify_webhook_signature`: the header must be `v0=` followed by the expected digest. */
  predicate VerifySignature(hmacHex: HmacHex, body: seq<bv8>, signature: string, secret: string) {
    "v0=" + hmacHex(secret, body) == signature
  }

  /** The endpoint's answer: `{"status": "success"}`, or the catch-all's 500. */
  datatype WebhookResponse = Success | ServerError

  // ---------------------------------------------------------------------------------------
  // The handlers

  /** What a handler asks of the meeting service, in order. */
  datatype StoreOp =
    | PutMeeting(meeting: MeetingPatch)
    | PutParticipant(participant: ParticipantPatch)
    | SyncParticipants(meetingId: string)
    | SyncRecordings(meetingId: string)

  /** Event times are handed over as the strings they arrived as. */
  function RawStamp(s: Option<string>): (r: Option<Stamp>)
    ensures r.Some? <==> s.Some?
    ensures r.Some? ==> r.value == Raw(s.value)
  {
    match s
    case None => None
    case Some(text) => Some(Raw(text))
  }

  /** `handle_meeting_started`: the meeting's topic, start time and host; nothing without an id. */
  function MeetingStarted(o: EventObject): seq<StoreOp> {
    if !RefTruthy(o.id) then []
    else
      [PutMeeting(MeetingPatch(RefText(o.id.value), Present(o.topic), Present(RawStamp(o.startTime)),
                               Absent, Absent, Present(o.hostEmail)))]
  }

  /** `handle_meeting_ended`: sync participants, then recordings, then record the end time. */
  function MeetingEnded(o: EventObject): seq<StoreOp> {
    if !RefTruthy(o.id) then []
    else
      var id := RefText(o.id.value);
      [SyncParticipants(id), SyncRecordings(id),
       PutMeeting(MeetingPatch(id, Absent, Absent, Present(RawStamp(o.endTime)), Absent, Absent))]
  }

  /** An event about a participant needs a meeting id and a participant object with keys. */
  predicate HasParticipant(o: EventObject) {
    RefTruthy(o.id) && o.participant.Some? && o.participant.value.keyCount > 0
  }

  /** `handle_participant_joined`: who joined, and when; the leave time is not in the dictionary. */
  function ParticipantJoined(o: EventObject): seq<StoreOp> {
    if !HasParticipant(o) then []
    else
      var p := o.participant.value;
      [PutParticipant(ParticipantPatch(
         RefText(o.id.value), Present(p.userId), Present(p.userName), Present(p.email),
         Present(RawStamp(o.joinTime)), Absent, Absent, Present(p.ipAddress), Present(p.location)))]
  }

  /** `handle_participant_left`: only the meeting, the user and the leave time. */
  function ParticipantLeft(o: EventObject): seq<StoreOp> {
    if !HasParticipant(o) then []
    else
      [PutParticipant(ParticipantPatch(
         RefText(o.id.value), Present(o.participant.value.userId), Absent, Absent,
         Absent, Present(RawStamp(o.leaveTime)), Absent, Absent, Absent))]
  }

  /** `handle_recording_completed`: a recording sync for the meeting. */
  function RecordingCompleted(o: EventObject): seq<StoreOp> {
    if !RefTruthy(o.id) then [] else [SyncRecordings(RefText(o.id.value))]
  }

  const MeetingStartedEvent: string := "meeting.started"
  const MeetingEndedEvent: string := "meeting.ended"
  const ParticipantJoinedEvent: string := "meeting.participant_joined"
  const ParticipantLeftEvent: string := "meeting.participant_left"
  const RecordingCompletedEvent: string := "recording.completed"

  /** The `if`/`elif` chain on the event name; any other name, or none, does nothing. */
  function Dispatch(event: Option<string>, o: EventObject): (ops: seq<StoreOp>)
    ensures ops != [] ==>
      (event.Some? && event.value in
        {MeetingStartedEvent, MeetingEndedEvent, ParticipantJoinedEvent, ParticipantLeftEvent, RecordingCompletedEvent})
  {
    if event == Some(MeetingStartedEvent) then MeetingStarted(o)
    else if event == Some(MeetingEndedEvent) then MeetingEnded(o)
    else if event == Some(ParticipantJoinedEvent) then ParticipantJoined(o)
    else if event == Some(ParticipantLeftEvent) then ParticipantLeft(o)
    else if event == Some(RecordingCompletedEvent) then RecordingCompleted(o)
    else []
  }

  // ---------------------------------------------------------------------------------------
  // Running the operations

  /** What the provider answers during one request. */
  datatype ProviderReplies = ProviderReplies(past: Reply, live: Reply, report: Reply, recordings: Reply)

  function Outcome<T>(r: Result<T, ServiceError>): Result<(), ServiceError> {
    if r.Ok? then Ok(()) else Err(r.error)
  }

  /** One operation on the tables. */
  function ApplyOp(t: Tables, op: StoreOp, env: ProviderReplies, parse: IsoParser, now: Instant)
    : (r: (Result<(), ServiceError>, Tables))
    ensures r.1.tokens == t.tokens
    ensures WellKeyed(t) ==> WellKeyed(r.1)
  {
    match op
    case PutMeeting(p) => (Ok(()), t.(meetings := UpsertMeeting(t.meetings, p, now)))
    case PutParticipant(p) =>
      var (r, participants) := StoreParticipantStep(t.participants, p, parse, now);
      (Outcome(r), t.(participants := participants))
    case SyncParticipants(id) =>
      var (r, after) := SyncParticipantsStep(t, id, env.past, env.live, env.report, parse, now);
      (Outcome(r), after)
    case SyncRecordings(id) =>
      var (r, after) := SyncRecordingsStep(t, id, env.recordings, parse, now);
      (Outcome(r), after)
  }

  /** The operations in order; the first failure stops the rest. */
  function RunOps(t: Tables, ops: seq<StoreOp>, env: ProviderReplies, parse: IsoParser, now: Instant)
    : (r: (Result<(), ServiceError>, Tables))
    ensures r.1.tokens == t.tokens
    ensures WellKeyed(t) ==> WellKeyed(r.1)
    ensures ops == [] ==> r == (Ok(()), t)
    decreases |ops|
  {
    if ops == [] then (Ok(()), t)
    else
      var (first, next) := ApplyOp(t, ops[0], env, parse, now);
      if first.Err? then (first, next) else RunOps(next, ops[1..], env, parse, now)
  }

  /** A participant sync runs first; the rest run only if it succeeds. */
  lemma RunSyncParticipantsFirst(
    t: Tables, id: string, rest: seq<StoreOp>, env: ProviderReplies, parse: IsoParser, now: Instant)
    ensures var (r, after) := SyncParticipantsStep(t, id, env.past, env.live, env.report, parse, now);
      RunOps(t, [SyncParticipants(id)] + rest, env, parse, now)
        == if r.Err? then (Err(r.error), after) else RunOps(after, rest, env, parse, now)
  {
    assert ([SyncParticipants(id)] + rest)[1..] == rest;
  }

  /** A recording sync runs first; the rest run only if it succeeds. */
  lemma RunSyncRecordingsFirst(
    t: Tables, id: string, rest: seq<StoreOp>, env: ProviderReplies, parse: IsoParser, now: Instant)
    ensures var (r, after) := SyncRecordingsStep(t, id, env.recordings, parse, now);
      RunOps(t, [SyncRecordings(id)] + rest, env, parse, now)
        == if r.Err? then (Err(r.error), after) else RunOps(after, rest, env, parse, now)
  {
    assert ([SyncRecordings(id)] + rest)[1..] == rest;
  }

  /** Storing a meeting alone always succeeds. */
  lemma RunPutMeeting(t: Tables, p: MeetingPatch, env: ProviderReplies, parse: IsoParser, now: Instant)
    ensures RunOps(t, [PutMeeting(p)], env, parse, now) == (Ok(()), t.(meetings := UpsertMeeting(t.meetings, p, now)))
  {
    assert [PutMeeting(p)][1..] == [];
  }

  /** `zoom_webhook` on the tables. */
  function WebhookStep(
    t: Tables, req: WebhookRequest, secret: Option<string>, hmacHex: HmacHex,
    env: ProviderReplies, parse: IsoParser, now: Instant)
    : (r: (WebhookResponse, Tables))
    ensures r.1.tokens == t.tokens
    ensures WellKeyed(t) ==> WellKeyed(r.1)
  {
    if req.json.None? then (ServerError, t)
    else if Truthy(secret) && !VerifySignature(hmacHex, req.body, req.signature.GetOr(""), secret.value) then
      (ServerError, t)
    else
      var payload := req.json.value;
      var (r, after) := RunOps(t, Dispatch(payload.event, payload.data), env, parse, now);
      (if r.Ok? then Success else ServerError, after)
  }

  // ---------------------------------------------------------------------------------------
  // Properties

  /** With a secret configured, a wrong signature stops the request before any handler runs. */
  lemma BadSignatureChangesNothing(
    t: Tables, req: WebhookRequest, secret: string, hmacHex: HmacHex,
    env: ProviderReplies, parse: IsoParser, now: Instant)
    requires secret != "" && req.signature.GetOr("") != "v0=" + hmacHex(secret, req.body)
    ensures WebhookStep(t, req, Some(secret), hmacHex, env, parse, now) == (ServerError, t)
  {}

  /** Without a secret the signature is never looked at. */
  lemma NoSecretNoCheck(
    t: Tables, req: WebhookRequest, secret: Option<string>, h1: HmacHex, h2: HmacHex, signature: Option<string>,
    env: ProviderReplies, parse: IsoParser, now: Instant)
    requires !Truthy(secret)
    ensures WebhookStep(t, req, secret, h1, env, parse, now)
         == WebhookStep(t, req.(signature := signature), secret, h2, env, parse, now)
  {}

  /** A correctly signed request, or any request without a secret, runs its event's operations. */
  lemma AcceptedRequestDispatches(
    t: Tables, req: WebhookRequest, secret: Option<string>, hmacHex: HmacHex,
    env: ProviderReplies, parse: IsoParser, now: Instant)
    requires req.json.Some?
    requires Truthy(secret) ==> req.signature == Some("v0=" + hmacHex(secret.value, req.body))
    ensures var payload := req.json.value;
      var (r, after) := RunOps(t, Dispatch(payload.event, payload.data), env, parse, now);
      WebhookStep(t, req, secret, hmacHex, env, parse, now) == (if r.Ok? then Success else ServerError, after)
  {}

  /** A body that is not JSON is a server error and changes nothing, whatever it is signed with. */
  lemma MalformedBodyChangesNothing(
    t: Tables, req: WebhookRequest, secret: Option<string>, hmacHex: HmacHex,
    env: ProviderReplies, parse: IsoParser, now: Instant)
    requires req.json.None?
    ensures WebhookStep(t, req, secret, hmacHex, env, parse, now) == (ServerError, t)
  {}

  /** Any other event name, or none, succeeds without touching the store. */
  lemma UnknownEventIsNoOp(
    t: Tables, req: WebhookRequest, secret: Option<string>, hmacHex: HmacHex,
    env: ProviderReplies, parse: IsoParser, now: Instant)
    requires req.json.Some?
    requires Truthy(secret) ==> req.signature == Some("v0=" + hmacHex(secret.value, req.body))
    requires req.json.value.event.None? || req.json.value.event.value !in
      {MeetingStartedEvent, MeetingEndedEvent, ParticipantJoinedEvent, ParticipantLeftEvent, RecordingCompletedEvent}
    ensures WebhookStep(t, req, secret, hmacHex, env, parse, now) == (Success, t)
  {}

  /** Every handler does nothing for an event without a usable meeting id. */
  lemma MissingIdIsNoOp(event: Option<string>, o: EventObject)
    requires !RefTruthy(o.id)
    ensures Dispatch(event, o) == []
  {}

  /**
    `meeting.started` stores the event's topic, start time and host on the meeting and leaves
    its end time, duration and participant count as they were.
  */
  lemma MeetingStartedStoresMeeting(t: Tables, o: EventObject, env: ProviderReplies, parse: IsoParser, now: Instant)
    requires RefTruthy(o.id)
    ensures var id := RefText(o.id.value);
      var (r, after) := RunOps(t, Dispatch(Some(MeetingStartedEvent), o), env, parse, now);
      && r.Ok? && id in after.meetings
      && after.meetings[id].topic == o.topic
      && after.meetings[id].startTime == RawStamp(o.startTime)
      && after.meetings[id].hostEmail == o.hostEmail
      && (id in t.meetings ==>
            && after.meetings[id].endTime == t.meetings[id].endTime
            && after.meetings[id].duration == t.meetings[id].duration
            && after.meetings[id].participantCount == t.meetings[id].participantCount)
      && after.participants == t.participants && after.recordings == t.recordings
  {
    var ops := Dispatch(Some(MeetingStartedEvent), o);
    assert ops == MeetingStarted(o);
    assert ops[1..] == [];
  }

  /** `meeting.ended` syncs participants, then recordings, and only then records the end time. */
  lemma MeetingEndedOrder(o: EventObject)
    requires RefTruthy(o.id)
    ensures var id := RefText(o.id.value);
      Dispatch(Some(MeetingEndedEvent), o)
        == [SyncParticipants(id), SyncRecordings(id),
            PutMeeting(MeetingPatch(id, Absent, Absent, Present(RawStamp(o.endTime)), Absent, Absent))]
  {}

  /** `recording.completed` only syncs the meeting's recordings. */
  lemma RecordingCompletedSyncs(o: EventObject)
    requires RefTruthy(o.id)
    ensures Dispatch(Some(RecordingCompletedEvent), o) == [SyncRecordings(RefText(o.id.value))]
  {}

  /**
    A `participant_left` event records the leave time but never computes a duration, even when
    the stored row has a join time: the dictionary it stores has no join time.
  */
  lemma ParticipantLeftKeepsDuration(t: Tables, o: EventObject, env: ProviderReplies, parse: IsoParser, now: Instant)
    requires HasParticipant(o) && ParticipantsKeyed(t.participants)
    ensures var key := (RefText(o.id.value), o.participant.value.userId);
      var (r, after) := RunOps(t, Dispatch(Some(ParticipantLeftEvent), o), env, parse, now);
      && r.Ok? && key in after.participants
      && after.participants[key].leaveTime == RawStamp(o.leaveTime)
      && after.participants[key].duration == (if key in t.participants then t.participants[key].duration else None)
      && after.meetings == t.meetings && after.recordings == t.recordings
  {
    var ops := Dispatch(Some(ParticipantLeftEvent), o);
    assert ops == ParticipantLeft(o);
    assert ops[1..] == [];
    DurationNeedsBothTimes(t.participants, ops[0].participant, parse, now);
  }

  /** A `participant_joined` event records the join time and likewise computes no duration. */
  lemma ParticipantJoinedKeepsDuration(t: Tables, o: EventObject, env: ProviderReplies, parse: IsoParser, now: Instant)
    requires HasParticipant(o) && ParticipantsKeyed(t.participants)
    ensures var key := (RefText(o.id.value), o.participant.value.userId);
      var (r, after) := RunOps(t, Dispatch(Some(ParticipantJoinedEvent), o), env, parse, now);
      && r.Ok? && key in after.participants
      && after.participants[key].joinTime == RawStamp(o.joinTime)
      && after.participants[key].duration == (if key in t.participants then t.participants[key].duration else None)
  {
    var ops := Dispatch(Some(ParticipantJoinedEvent), o);
    assert ops == ParticipantJoined(o);
    assert ops[1..] == [];
    DurationNeedsBothTimes(t.participants, ops[0].participant, parse, now);
  }

  /** Participant events without a participant object, or with an empty one, do nothing. */
  lemma ParticipantEventNeedsParticipant(o: EventObject)
    requires !HasParticipant(o)
    ensures Dispatch(Some(ParticipantJoinedEvent), o) == []
    ensures Dispatch(Some(ParticipantLeftEvent), o) == []
  {}

  // ---------------------------------------------------------------------------------------
  // The endpoint on the store

  method HandleMeetingStarted(db: Store, o: EventObject, env: ProviderReplies, parse: IsoParser, now: Instant)
    returns (r: Result<(), ServiceError>)
    requires db.Valid()
    modifies db`meetings
    ensures db.Valid()
    ensures (r, db.Snapshot()) == RunOps(old(db.Snapshot()), MeetingStarted(o), env, parse, now)
  {
    r := Ok(());
    if RefTruthy(o.id) {
      var meetingData := MeetingPatch(RefText(o.id.value), Present(o.topic), Present(RawStamp(o.startTime)),
                                      Absent, Absent, Present(o.hostEmail));
      var m := StoreMeeting(db, meetingData, now);
      assert MeetingStarted(o)[1..] == [];
    }
  }

  method HandleMeetingEnded(db: Store, o: EventObject, env: ProviderReplies, parse: IsoParser, now: Instant)
    returns (r: Result<(), ServiceError>)
    requires db.Valid()
    modifies db`meetings, db`participants, db`recordings
    ensures db.Valid()
    ensures (r, db.Snapshot()) == RunOps(old(db.Snapshot()), MeetingEnded(o), env, parse, now)
  {
    r := Ok(());
    if RefTruthy(o.id) {
      var id := RefText(o.id.value);
      var meetingData := MeetingPatch(id, Absent, Absent, Present(RawStamp(o.endTime)), Absent, Absent);
      assert MeetingEnded(o) == [SyncParticipants(id)] + ([SyncRecordings(id)] + [PutMeeting(meetingData)]);
      RunSyncParticipantsFirst(db.Snapshot(), id, [SyncRecordings(id)] + [PutMeeting(meetingData)], env, parse, now);
      var participants := SyncMeetingParticipants(db, id, env.past, env.live, env.report, parse, now);
      if participants.Err? {
        return Err(participants.error);
      }
      RunSyncRecordingsFirst(db.Snapshot(), id, [PutMeeting(meetingData)], env, parse, now);
      var recordings := SyncMeetingRecordings(db, id, env.recordings, parse, now);
      if recordings.Err? {
        return Err(recordings.error);
      }
      RunPutMeeting(db.Snapshot(), meetingData, env, parse, now);
      var m := StoreMeeting(db, meetingData, now);
    }
  }

  method HandleParticipantJoined(db: Store, o: EventObject, env: ProviderReplies, parse: IsoParser, now: Instant)
    returns (r: Result<(), ServiceError>)
    requires db.Valid()
    modifies db`participants
    ensures db.Valid()
    ensures (r, db.Snapshot()) == RunOps(old(db.Snapshot()), ParticipantJoined(o), env, parse, now)
  {
    r := Ok(());
    if HasParticipant(o) {
      var p := o.participant.value;
      var participantData := ParticipantPatch(
        RefText(o.id.value), Present(p.userId), Present(p.userName), Present(p.email),
        Present(RawStamp(o.joinTime)), Absent, Absent, Present(p.ipAddress), Present(p.location));
      var stored := StoreParticipant(db, participantData, parse, now);
      assert ParticipantJoined(o)[1..] == [];
      r := Outcome(stored);
    }
  }

  method HandleParticipantLeft(db: Store, o: EventObject, env: ProviderReplies, parse: IsoParser, now: Instant)
    returns (r: Result<(), ServiceError>)
    requires db.Valid()
    modifies db`participants
    ensures db.Valid()
    ensures (r, db.Snapshot()) == RunOps(old(db.Snapshot()), ParticipantLeft(o), env, parse, now)
  {
    r := Ok(());
    if HasParticipant(o) {
      var participantData := ParticipantPatch(
        RefText(o.id.value), Present(o.participant.value.userId), Absent, Absent,
        Absent, Present(RawStamp(o.leaveTime)), Absent, Absent, Absent);
      var stored := StoreParticipant(db, participantData, parse, now);
      assert ParticipantLeft(o)[1..] == [];
      r := Outcome(stored);
    }
  }

  method HandleRecordingCompleted(db: Store, o: EventObject, env: ProviderReplies, parse: IsoParser, now: Instant)
    returns (r: Result<(), ServiceError>)
    requires db.Valid()
    modifies db`recordings
    ensures db.Valid()
    ensures (r, db.Snapshot()) == RunOps(old(db.Snapshot()), RecordingCompleted(o), env, parse, now)
  {
    r := Ok(());
    if RefTruthy(o.id) {
      var recordings := SyncMeetingRecordings(db, RefText(o.id.value), env.recordings, parse, now);
      assert RecordingCompleted(o)[1..] == [];
      r := Outcome(recordings);
    }
  }

  /** `zoom_webhook` on the store. */
  method ZoomWebhook(
    db: Store, req: WebhookRequest, secret: Option<string>, hmacHex: HmacHex,
    env: ProviderReplies, parse: IsoParser, now: Instant)
    returns (response: WebhookResponse)
    requires db.Valid()
    modifies db`meetings, db`participants, db`recordings
    ensures db.Valid()
    ensures (response, db.Snapshot()) == WebhookStep(old(db.Snapshot()), req, secret, hmacHex, env, parse, now)
  {
    if req.json.None? {
      return ServerError;
    }
    var payload := req.json.value;
    if secret.Some? && secret.value != "" {
      var signature := req.signature.GetOr("");
      if !VerifySignature(hmacHex, req.body, signature, secret.value) {
        return ServerError;
      }
    }
    var event, eventData := payload.event, payload.data;
    var r: Result<(), ServiceError> := Ok(());
    if event == Some(MeetingStartedEvent) {
      r := HandleMeetingStarted(db, eventData, env, parse, now);
    } else if event == Some(MeetingEndedEvent) {
      r := HandleMeetingEnded(db, eventData, env, parse, now);
    } else if event == Some(ParticipantJoinedEvent) {
      r := HandleParticipantJoined(db, eventData, env, parse, now);
    } else if event == Some(ParticipantLeftEvent) {
      r := HandleParticipantLeft(db, eventData, env, parse, now);
    } else if event == Some(RecordingCompletedEvent) {
      r := HandleRecordingCompleted(db, eventData, env, parse, now);
    }
    response := if r.Ok? then Success else ServerError;
  }
}
