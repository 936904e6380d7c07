/**
  The four tables of the meeting tracker's store, their keys and column defaults, and the
  derivation of the sqlite file's path and directory from the database URL.

  Timestamps are whole microseconds since the epoch. A timestamp column holds either a parsed
  instant or, where a caller hands the store a string it has not parsed, that raw string.
*/
module Database {
  import opened Wrappers
  import opened Text
  import opened Paths

  /** A point in time, in microseconds. */
  type Instant = int

  const MicrosPerSecond: int := 1_000_000

  /** The value of a timestamp column: a parsed instant, or a string stored as it arrived. */
  datatype Stamp = At(instant: Instant) | Raw(text: string)

  /** A row of `meetings`; `meetingId` is the unique, non-null key. */
  datatype Meeting = Meeting(
    meetingId: string,
    topic: Option<string>,
    startTime: Option<Stamp>,
    endTime: Option<Stamp>,
    duration: Option<int>,
    participantCount: int,
    hostEmail: Option<string>,
    createdAt: Instant,
    updatedAt: Instant)

  /** Participants are looked up by meeting and user; a missing user id matches `IS NULL`. */
  type ParticipantKey = (string, Option<string>)

  /** A row of `participants`; `duration` is in seconds. */
  datatype Participant = Participant(
    meetingId: string,
    userId: Option<string>,
    userName: Option<string>,
    userEmail: Option<string>,
    joinTime: Option<Stamp>,
    leaveTime: Option<Stamp>,
    duration: Option<int>,
    device: Option<string>,
    ipAddress: Option<string>,
    location: Option<string>,
    createdAt: Instant)
  {
    function Key(): ParticipantKey {
      (meetingId, userId)
    }
  }

  /** The two values the `status` column of `recordings` is ever given. */
  datatype RecordingStatus = Pending | Downloaded

  /** A row of `recordings`; `recordingId` is the unique, non-null key. */
  datatype Recording = Recording(
    meetingId: string,
    recordingId: string,
    recordingType: Option<string>,
    fileSize: Option<int>,
    fileType: Option<string>,
    downloadUrl: Option<string>,
    playUrl: Option<string>,
    recordingStart: Option<Stamp>,
    recordingEnd: Option<Stamp>,
    filePath: Option<string>,
    status: RecordingStatus,
    createdAt: Instant)

  /** A row of `oauth_tokens`. */
  datatype OAuthToken = OAuthToken(
    accessToken: string,
    refreshToken: Option<string>,
    expiresAt: Option<Instant>,
    tokenType: string,
    createdAt: Instant)

  /** Column defaults. */
  const DefaultParticipantCount: int := 0
  const DefaultRecordingStatus: RecordingStatus := Pending
  const DefaultTokenType: string := "Bearer"

  /**
    The whole store as a value. The token rows are kept in the order they were created, so the
    row the newest `created_at` selects is the last one.
  */
  datatype Tables = Tables(
    meetings: map<string, Meeting>,
    participants: map<ParticipantKey, Participant>,
    recordings: map<string, Recording>,
    tokens: seq<OAuthToken>)

  /** Every row is filed under its own key, so a key names at most one row. */
  predicate MeetingsKeyed(m: map<string, Meeting>) {
    forall k | k in m :: m[k].meetingId == k
  }

  predicate ParticipantsKeyed(m: map<ParticipantKey, Participant>) {
    forall k | k in m :: m[k].Key() == k
  }

  predicate RecordingsKeyed(m: map<string, Recording>) {
    forall k | k in m :: m[k].recordingId == k
  }

  predicate WellKeyed(t: Tables) {
    MeetingsKeyed(t.meetings) && ParticipantsKeyed(t.participants) && RecordingsKeyed(t.recordings)
  }

  /** The database the backend works on; each table is a field the operations reassign. */
  class Store {
    var meetings: map<string, Meeting>
    var participants: map<ParticipantKey, Participant>
    var recordings: map<string, Recording>
    var tokens: seq<OAuthToken>

    function Snapshot(): Tables
      reads this
    {
      Tables(meetings, participants, recordings, tokens)
    }

    predicate Valid()
      reads this
    {
      WellKeyed(Snapshot())
    }

    /** A freshly created, empty database. */
    constructor ()
      ensures Valid()
      ensures Snapshot() == Tables(map[], map[], map[], [])
    {
      meetings := map[];
      participants := map[];
      recordings := map[];
      tokens := [];
    }
  }

  /** The URL used when `DATABASE_URL` is not set. */
  const DefaultDatabaseUrl: string := "sqlite+aiosqlite:///./data/meetings.db"

  /** `os.getenv("DATABASE_URL", default)`: a set variable wins, even when it is empty. */
  function DatabaseUrl(env: Option<string>): (url: string)
    ensures env.None? ==> url == DefaultDatabaseUrl
    ensures env.Some? ==> url == env.value
  {
    env.GetOr(DefaultDatabaseUrl)
  }

  /** The text after the first-split-last `///` of the URL, or after `//` when there is no `///`. */
  function ExtractDbPath(url: string): (p: string)
    ensures EndsWith(url, p)
    ensures var sep := if Contains(url, "///") then "///" else "//";
      && !Contains(p, sep)
      && (Contains(url, sep) ==> EndsWith(url, sep + p))
      && (!Contains(url, sep) ==> p == url)
  {
    var sep := if Contains(url, "///") then "///" else "//";
    LastPieceHasNoSeparator(url, sep);
    LastPieceIsSuffix(url, sep);
    if Contains(url, sep) then
      LastPieceFollowsSeparator(url, sep);
      LastPiece(url, sep)
    else
      LastPieceWithoutSeparator(url, sep);
      LastPiece(url, sep)
  }

  /** A leading `./` is dropped; a path that is neither `./`-relative nor absolute gets `./`. */
  function NormaliseDbPath(p: string): (r: string)
    ensures StartsWith(p, "./") ==> r == p[2..] && "./" + r == p
    ensures !StartsWith(p, "./") && !StartsWith(p, "/") ==> r == "./" + p
    ensures StartsWith(p, "/") ==> r == p
    ensures StartsWith(r, "/") ==> StartsWith(p, "/") || StartsWith(p, ".//")
  {
    if StartsWith(p, "./") then
      assert p[..2][0] == p[0];
      p[2..]
    else if !StartsWith(p, "/") then
      assert ("./" + p)[0] == '.';
      "./" + p
    else p
  }

  /** The sqlite file's path, or `None` for a URL that does not mention sqlite. */
  function DbPath(url: string): (r: Option<string>)
    ensures r.Some? <==> Contains(url, "sqlite")
  {
    if Contains(url, "sqlite") then Some(NormaliseDbPath(ExtractDbPath(url))) else None
  }

  /** The directory created for the sqlite file: `dirname` of the path, when that is non-empty. */
  function DataDirectory(url: string): (r: Option<string>)
    ensures r.Some? ==> DbPath(url).Some? && r.value != "" && StartsWith(DbPath(url).value, r.value)
    ensures r.None? <==> DbPath(url).None? || '/' !in DbPath(url).value
  {
    match DbPath(url)
    case None => None
    case Some(p) => if DirName(p) != "" then Some(DirName(p)) else None
  }

  /**
    For a URL `<scheme>///<path>` whose scheme mentions sqlite and has no slash, the path is
    everything after the first `///`, normalised; an absolute path (four slashes) stays absolute.
  */
  lemma DbPathOfUrl(scheme: string, path: string)
    requires '/' !in scheme && Contains(scheme, "sqlite")
    requires !Contains(path, "///")
    ensures DbPath(scheme + "///" + path) == Some(NormaliseDbPath(path))
  {
    var url := scheme + "///" + path;
    var i :| 0 <= i <= |scheme| - |"sqlite"| && OccursAt(scheme, "sqlite", i);
    assert url[i..i + 6] == scheme[i..i + 6];
    assert OccursAt(url, "sqlite", i);
    assert url[|scheme|..|scheme| + 3] == "///";
    assert OccursAt(url, "///", |scheme|);
    forall j | 0 <= j < |scheme|
      ensures !OccursAt(url, "///", j)
    {
      assert url[j] == scheme[j];
      assert j + 3 <= |url| ==> url[j..j + 3][0] == url[j];
    }
    FindFirstOccurrence(url, "///", |scheme|);
    LastPieceUnfold(url, "///");
    assert url[|scheme| + 3..] == path;
    LastPieceWithoutSeparator(path, "///");
  }

  /** The default URL puts the database at `data/meetings.db` and creates the directory `data`. */
  lemma DefaultDataDirectory()
    ensures DbPath(DefaultDatabaseUrl) == Some("data/meetings.db")
    ensures DataDirectory(DefaultDatabaseUrl) == Some("data")
  {
    DefaultDbPath();
    DefaultDirName();
  }

  lemma DefaultDbPath()
    ensures DbPath(DefaultDatabaseUrl) == Some("data/meetings.db")
  {
    DefaultUrlParts();
    DefaultSchemeIsSqlite();
    DefaultPathHasNoTripleSlash();
    DbPathOfUrl("sqlite+aiosqlite:", "./data/meetings.db");
    NormaliseDefaultPath();
  }

  lemma DefaultUrlParts()
    ensures DefaultDatabaseUrl == "sqlite+aiosqlite:" + "///" + "./data/meetings.db"
  {}

  lemma DefaultSchemeIsSqlite()
    ensures '/' !in "sqlite+aiosqlite:" && Contains("sqlite+aiosqlite:", "sqlite")
  {
    assert OccursAt("sqlite+aiosqlite:", "sqlite", 0);
  }

  lemma NormaliseDefaultPath()
    ensures NormaliseDbPath("./data/meetings.db") == "data/meetings.db"
  {
    var p := "./data/meetings.db";
    assert p[..2] == "./";
    assert p[2..] == "data/meetings.db";
  }

  lemma DefaultDirName()
    ensures DirName("data/meetings.db") == "data"
  {
    DefaultFileJoined();
    DefaultFileDirectory();
  }

  lemma DefaultFileJoined()
    ensures PathJoin("data", "meetings.db") == "data/meetings.db"
  {
    assert "meetings.db"[0] == 'm';
  }

  lemma DefaultFileDirectory()
    ensures DirName(PathJoin("data", "meetings.db")) == "data"
  {
    assert "meetings.db"[0] == 'm';
    DirNameOfJoin("data", "meetings.db");
  }

  lemma DefaultPathHasNoTripleSlash()
    ensures !Contains("./data/meetings.db", "///")
  {
    var path := "./data/meetings.db";
    forall i | 0 <= i <= |path| - 3
      ensures !OccursAt(path, "///", i)
    {
      assert path[i..i + 3][1] == path[i + 1] && path[i..i + 3][2] == path[i + 2];
      assert path[i + 1] != '/' || path[i + 2] != '/';
    }
  }
}
