/**
  The read side of the meeting service: one meeting with its participants, the paged list of
  meetings, and the duration statistics of a meeting's participants.

  A table is a map, so the rows a query selects are first gathered into a sequence in an
  unspecified order (`ParticipantRows`, `MeetingRows`); the query then sorts them as its
  `ORDER BY` asks. Ties keep no particular order in SQL, so every sorted arrangement of the
  selected rows is a faithful answer.
*/
module MeetingQueries {
  import opened Wrappers
  import opened Sorting
  import opened Database
  import MeetingSync

  // ---------------------------------------------------------------------------------------
  // Gathering rows

  /** The rows of `participants` filed under `keys`, each once, in some order. */
  ghost function ParticipantRows(participants: map<ParticipantKey, Participant>, keys: set<ParticipantKey>)
    : (r: seq<Participant>)
    requires ParticipantsKeyed(participants) && keys <= participants.Keys
    ensures |r| == |keys|
    ensures forall i | 0 <= i < |r| :: r[i].Key() in keys && participants[r[i].Key()] == r[i]
    ensures forall k | k in keys :: participants[k] in r
    decreases |keys|
  {
    if keys == {} then []
    else
      var k :| k in keys;
      var rest := ParticipantRows(participants, keys - {k});
      [participants[k]] + rest
  }

  /** The keys of a meeting's participants. */
  function ParticipantsOf(participants: map<ParticipantKey, Participant>, meetingId: string)
    : (keys: set<ParticipantKey>)
    ensures keys <= participants.Keys
    ensures |keys| == MeetingSync.CountParticipants(participants, meetingId)
  {
    set k | k in participants && participants[k].meetingId == meetingId
  }

  /** All rows of `meetings`, each once, in some order. */
  ghost function MeetingRows(meetings: map<string, Meeting>, keys: set<string>): (r: seq<Meeting>)
    requires MeetingsKeyed(meetings) && keys <= meetings.Keys
    ensures |r| == |keys|
    ensures forall i | 0 <= i < |r| :: r[i].meetingId in keys && meetings[r[i].meetingId] == r[i]
    ensures forall k | k in keys :: meetings[k] in r
    decreases |keys|
  {
    if keys == {} then []
    else
      var k :| k in keys;
      [meetings[k]] + MeetingRows(meetings, keys - {k})
  }

  // ---------------------------------------------------------------------------------------
  // get_meeting_details

  /**
    Where a join time sorts: SQLite puts NULL first in ascending order, then the stored times.
    A raw string never reaches the database (the datetime column refuses it), so its place is
    immaterial; it is put last.
  */
  function JoinRank(p: Participant): (rank: (int, int))
  {
    match p.joinTime
    case None => (0, 0)
    case Some(At(t)) => (1, t)
    case Some(Raw(_)) => (2, 0)
  }

  /** `ORDER BY join_time`. */
  predicate JoinedNoLater(a: Participant, b: Participant) {
    var (ra, ta) := JoinRank(a);
    var (rb, tb) := JoinRank(b);
    ra < rb || (ra == rb && ta <= tb)
  }

  lemma JoinOrderIsTotal()
    ensures TotalPreorder(JoinedNoLater)
  {}

  /** The reply of `get_meeting_details`. */
  datatype MeetingDetails = MeetingDetails(meeting: Meeting, participants: seq<Participant>)

  /** The participants of a meeting in order of joining: each of its rows exactly once. */
  ghost function ParticipantsByJoin(participants: map<ParticipantKey, Participant>, meetingId: string)
    : (r: seq<Participant>)
    requires ParticipantsKeyed(participants)
    ensures SortedBy(r, JoinedNoLater)
    ensures |r| == MeetingSync.CountParticipants(participants, meetingId)
    ensures forall p | p in r :: p.meetingId == meetingId && p.Key() in participants && participants[p.Key()] == p
    ensures forall k | k in participants && participants[k].meetingId == meetingId :: participants[k] in r
  {
    var keys := ParticipantsOf(participants, meetingId);
    var rows := ParticipantRows(participants, keys);
    JoinOrderIsTotal();
    var sorted := InsertionSort(rows, JoinedNoLater);
    SameElements(rows, sorted);
    RowsOfMeeting(participants, meetingId, rows);
    sorted
  }

  lemma RowsOfMeeting(participants: map<ParticipantKey, Participant>, meetingId: string, rows: seq<Participant>)
    requires forall i | 0 <= i < |rows| ::
      rows[i].Key() in ParticipantsOf(participants, meetingId) && participants[rows[i].Key()] == rows[i]
    ensures forall p | p in rows :: p.meetingId == meetingId
  {
    forall p | p in rows
      ensures p.meetingId == meetingId
    {
      var i :| 0 <= i < |rows| && rows[i] == p;
    }
  }

  /**
    `get_meeting_details`: nothing for an unknown meeting; otherwise the meeting and its
    participants in order of joining, earliest first and those without a join time before all.
  */
  ghost function GetMeetingDetails(t: Tables, meetingId: string): (r: Option<MeetingDetails>)
    requires WellKeyed(t)
    ensures r.None? <==> meetingId !in t.meetings
    ensures r.Some? ==> r.value.meeting == t.meetings[meetingId]
    ensures r.Some? ==> r.value.participants == ParticipantsByJoin(t.participants, meetingId)
  {
    if meetingId !in t.meetings then None
    else Some(MeetingDetails(t.meetings[meetingId], ParticipantsByJoin(t.participants, meetingId)))
  }

  /** Sequences with the same multiset hold the same elements. */
  lemma SameElements<T>(a: seq<T>, b: seq<T>)
    requires multiset(a) == multiset(b)
    ensures forall x :: x in a <==> x in b
  {
    forall x
      ensures x in a <==> x in b
    {
      assert x in a <==> x in multiset(a);
      assert x in b <==> x in multiset(b);
    }
  }

  // ---------------------------------------------------------------------------------------
  // get_all_meetings

  /** `ORDER BY created_at DESC`. */
  predicate CreatedNoEarlier(a: Meeting, b: Meeting) {
    a.createdAt >= b.createdAt
  }

  lemma NewestFirstIsTotal()
    ensures TotalPreorder(CreatedNoEarlier)
  {}

  /** `LIMIT limit OFFSET offset`: skip `offset` rows, then keep at most `limit`. */
  function Page<T>(s: seq<T>, limit: nat, offset: nat): (r: seq<T>)
    ensures |r| == if offset >= |s| then 0 else if |s| - offset < limit then |s| - offset else limit
    ensures forall i | 0 <= i < |r| :: r[i] == s[offset + i]
  {
    if offset >= |s| then []
    else if |s| - offset < limit then s[offset..]
    else s[offset..offset + limit]
  }

  /** Every meeting, newest first. */
  ghost function MeetingsNewestFirst(t: Tables): (r: seq<Meeting>)
    requires WellKeyed(t)
    ensures SortedBy(r, CreatedNoEarlier)
    ensures |r| == |t.meetings|
    ensures forall m | m in r :: m.meetingId in t.meetings && t.meetings[m.meetingId] == m
    ensures forall k | k in t.meetings :: t.meetings[k] in r
  {
    var rows := MeetingRows(t.meetings, t.meetings.Keys);
    NewestFirstIsTotal();
    var sorted := InsertionSort(rows, CreatedNoEarlier);
    StoredRows(t.meetings, rows, sorted);
    sorted
  }

  /** Rearranging the gathered rows keeps them the stored meetings, each once. */
  lemma StoredRows(meetings: map<string, Meeting>, rows: seq<Meeting>, sorted: seq<Meeting>)
    requires forall i | 0 <= i < |rows| :: rows[i].meetingId in meetings && meetings[rows[i].meetingId] == rows[i]
    requires forall k | k in meetings :: meetings[k] in rows
    requires |rows| == |meetings.Keys| && multiset(rows) == multiset(sorted) && |sorted| == |rows|
    ensures |sorted| == |meetings|
    ensures forall m | m in sorted :: m.meetingId in meetings && meetings[m.meetingId] == m
    ensures forall k | k in meetings :: meetings[k] in sorted
  {
    SameElements(rows, sorted);
    assert |meetings.Keys| == |meetings|;
  }

  /** `get_all_meetings(limit, offset)`: one page of the meetings, newest first. */
  ghost function GetAllMeetings(t: Tables, limit: nat, offset: nat): (r: seq<Meeting>)
    requires WellKeyed(t)
  {
    Page(MeetingsNewestFirst(t), limit, offset)
  }

  /**
    A page is newest first, holds `min(limit, n - offset)` stored meetings, and every meeting on
    it is at least as new as every meeting on any later page.
  */
  lemma AllMeetingsPage(t: Tables, limit: nat, offset: nat)
    requires WellKeyed(t)
    ensures var r := GetAllMeetings(t, limit, offset);
      && SortedBy(r, CreatedNoEarlier)
      && |r| == (if offset >= |t.meetings| then 0
                 else if |t.meetings| - offset < limit then |t.meetings| - offset else limit)
      && (forall m | m in r :: m.meetingId in t.meetings && t.meetings[m.meetingId] == m)
      && (forall m, later | m in r && later in GetAllMeetings(t, limit, offset + limit) ::
            m.createdAt >= later.createdAt)
  {
    var all := MeetingsNewestFirst(t);
    PageIsSorted(all, limit, offset);
    PageHoldsRows(all, limit, offset);
    PagesInOrder(all, limit, offset);
  }

  lemma PageIsSorted(all: seq<Meeting>, limit: nat, offset: nat)
    requires SortedBy(all, CreatedNoEarlier)
    ensures SortedBy(Page(all, limit, offset), CreatedNoEarlier)
  {
    var r := Page(all, limit, offset);
    forall i, j | 0 <= i < j < |r|
      ensures CreatedNoEarlier(r[i], r[j])
    {
      assert r[i] == all[offset + i] && r[j] == all[offset + j];
    }
  }

  lemma PageHoldsRows(all: seq<Meeting>, limit: nat, offset: nat)
    ensures forall m | m in Page(all, limit, offset) :: m in all
  {
    var r := Page(all, limit, offset);
    forall m | m in r
      ensures m in all
    {
      var i :| 0 <= i < |r| && r[i] == m;
      assert all[offset + i] == m;
    }
  }

  lemma PagesInOrder(all: seq<Meeting>, limit: nat, offset: nat)
    requires SortedBy(all, CreatedNoEarlier)
    ensures forall m, later | m in Page(all, limit, offset) && later in Page(all, limit, offset + limit) ::
      m.createdAt >= later.createdAt
  {
    var r := Page(all, limit, offset);
    var next := Page(all, limit, offset + limit);
    forall m, later | m in r && later in next
      ensures m.createdAt >= later.createdAt
    {
      var i :| 0 <= i < |r| && r[i] == m;
      var j :| 0 <= j < |next| && next[j] == later;
      assert all[offset + i] == m && all[offset + limit + j] == later;
      assert CreatedNoEarlier(all[offset + i], all[offset + limit + j]);
    }
  }

  /** One page large enough holds every meeting. */
  lemma AllMeetingsFirstPage(t: Tables, limit: nat)
    requires WellKeyed(t) && limit >= |t.meetings|
    ensures forall k | k in t.meetings :: t.meetings[k] in GetAllMeetings(t, limit, 0)
  {
    var all := MeetingsNewestFirst(t);
    assert Page(all, limit, 0) == all;
  }

  // ---------------------------------------------------------------------------------------
  // get_participant_stats

  /** The reply of `get_participant_stats`; every figure is 0 when no row qualifies. */
  datatype ParticipantStats = ParticipantStats(
    totalParticipants: nat,
    avgDuration: real,
    minDuration: int,
    maxDuration: int,
    totalDuration: int)

  function Sum(ds: seq<int>): int {
    if ds == [] then 0 else Sum(ds[..|ds| - 1]) + ds[|ds| - 1]
  }

  function Min(ds: seq<int>): (m: int)
    requires ds != []
    ensures m in ds && forall d | d in ds :: m <= d
  {
    if |ds| == 1 then ds[0]
    else
      var m := Min(ds[..|ds| - 1]);
      assert forall d | d in ds :: d in ds[..|ds| - 1] || d == ds[|ds| - 1];
      if ds[|ds| - 1] < m then ds[|ds| - 1] else m
  }

  function Max(ds: seq<int>): (m: int)
    requires ds != []
    ensures m in ds && forall d | d in ds :: d <= m
  {
    if |ds| == 1 then ds[0]
    else
      var m := Max(ds[..|ds| - 1]);
      assert forall d | d in ds :: d in ds[..|ds| - 1] || d == ds[|ds| - 1];
      if ds[|ds| - 1] > m then ds[|ds| - 1] else m
  }

  /** `count`, `avg`, `min`, `max` and `sum` over the durations, with `or 0` for an empty set. */
  function Stats(ds: seq<int>): (s: ParticipantStats)
    ensures s.totalParticipants == |ds|
    ensures ds == [] ==> s == ParticipantStats(0, 0.0, 0, 0, 0)
    ensures ds != [] ==> s.minDuration in ds && s.maxDuration in ds
    ensures forall d | d in ds :: s.minDuration <= d <= s.maxDuration
    ensures s.totalDuration == Sum(ds)
    ensures ds != [] ==> s.avgDuration == Sum(ds) as real / |ds| as real
  {
    if ds == [] then ParticipantStats(0, 0.0, 0, 0, 0)
    else
      var total := Sum(ds);
      ParticipantStats(|ds|, total as real / |ds| as real, Min(ds), Max(ds), total)
  }

  /** The figures bound each other: `count * min <= sum <= count * max`, and the mean lies between. */
  lemma {:induction false} SumBounds(ds: seq<int>, lo: int, hi: int)
    requires forall d | d in ds :: lo <= d <= hi
    ensures |ds| * lo <= Sum(ds) <= |ds| * hi
  {
    if ds != [] {
      var init, last := ds[..|ds| - 1], ds[|ds| - 1];
      assert forall d | d in init :: d in ds;
      SumBounds(init, lo, hi);
      assert last in ds;
      assert Sum(ds) == Sum(init) + last;
      assert |ds| * lo == |init| * lo + lo && |ds| * hi == |init| * hi + hi;
    }
  }

  lemma StatsBounds(ds: seq<int>)
    requires ds != []
    ensures var s := Stats(ds);
      && s.minDuration <= s.maxDuration
      && s.totalParticipants * s.minDuration <= s.totalDuration <= s.totalParticipants * s.maxDuration
      && s.minDuration as real <= s.avgDuration <= s.maxDuration as real
  {
    var s := Stats(ds);
    SumBounds(ds, s.minDuration, s.maxDuration);
    MeanBetween(s.totalDuration, |ds|, s.minDuration, s.maxDuration);
  }

  /** A mean lies between the bounds of what it averages. */
  lemma MeanBetween(total: int, n: nat, lo: int, hi: int)
    requires n > 0 && n * lo <= total <= n * hi
    ensures lo as real <= total as real / n as real <= hi as real
  {
    assert (n * lo) as real == n as real * lo as real;
    assert (n * hi) as real == n as real * hi as real;
  }

  /** The keys of a meeting's participants whose duration is known. */
  function TimedParticipantsOf(participants: map<ParticipantKey, Participant>, meetingId: string)
    : (keys: set<ParticipantKey>)
    ensures keys <= ParticipantsOf(participants, meetingId)
    ensures forall k | k in keys :: participants[k].duration.Some?
    ensures forall k | k in ParticipantsOf(participants, meetingId) && participants[k].duration.Some? :: k in keys
  {
    set k | k in participants && participants[k].meetingId == meetingId && participants[k].duration.Some?
  }

  function Durations(rows: seq<Participant>): (ds: seq<int>)
    requires forall i | 0 <= i < |rows| :: rows[i].duration.Some?
    ensures |ds| == |rows|
    ensures forall i | 0 <= i < |ds| :: ds[i] == rows[i].duration.value
  {
    seq(|rows|, i requires 0 <= i < |rows| => rows[i].duration.value)
  }

  /** The sum of the known durations of the rows under `keys`, in no particular order. */
  ghost function TotalDuration(participants: map<ParticipantKey, Participant>, keys: set<ParticipantKey>): int
    requires forall k | k in keys :: k in participants && participants[k].duration.Some?
  {
    if keys == {} then 0
    else
      var k :| k in keys;
      participants[k].duration.value + TotalDuration(participants, keys - {k})
  }

  /** Any row may be taken out first: the total does not depend on the order of summation. */
  lemma {:induction false} TotalDurationWithout(
    participants: map<ParticipantKey, Participant>, keys: set<ParticipantKey>, k: ParticipantKey)
    requires forall j | j in keys :: j in participants && participants[j].duration.Some?
    requires k in keys
    ensures TotalDuration(participants, keys)
         == participants[k].duration.value + TotalDuration(participants, keys - {k})
    decreases |keys|
  {
    var j :| j in keys && TotalDuration(participants, keys)
                          == participants[j].duration.value + TotalDuration(participants, keys - {j});
    if j != k {
      TotalDurationWithout(participants, keys - {j}, k);
      TotalDurationWithout(participants, keys - {k}, j);
      assert keys - {j} - {k} == keys - {k} - {j};
    }
  }

  lemma {:induction false} SumPrepend(d: int, ds: seq<int>)
    ensures Sum([d] + ds) == d + Sum(ds)
    decreases |ds|
  {
    if ds != [] {
      var init := ds[..|ds| - 1];
      assert ([d] + ds)[..|ds|] == [d] + init;
      SumPrepend(d, init);
    }
  }

  /** Summing the gathered rows in their order gives the order-free total. */
  lemma {:induction false} RowsTotal(participants: map<ParticipantKey, Participant>, keys: set<ParticipantKey>)
    requires ParticipantsKeyed(participants) && keys <= participants.Keys
    requires forall k | k in keys :: participants[k].duration.Some?
    ensures Sum(Durations(ParticipantRows(participants, keys))) == TotalDuration(participants, keys)
    decreases |keys|
  {
    if keys != {} {
      var k := RowsFirst(participants, keys);
      var rest := ParticipantRows(participants, keys - {k});
      DurationsPrepend(participants[k], rest);
      SumPrepend(participants[k].duration.value, Durations(rest));
      RowsTotal(participants, keys - {k});
      TotalDurationWithout(participants, keys, k);
    }
  }

  /** The gathered rows start with the row of some key, followed by the rows of the others. */
  lemma RowsFirst(participants: map<ParticipantKey, Participant>, keys: set<ParticipantKey>) returns (k: ParticipantKey)
    requires ParticipantsKeyed(participants) && keys <= participants.Keys && keys != {}
    ensures k in keys
    ensures ParticipantRows(participants, keys) == [participants[k]] + ParticipantRows(participants, keys - {k})
  {
    k := ParticipantRows(participants, keys)[0].Key();
  }

  lemma DurationsPrepend(row: Participant, rows: seq<Participant>)
    requires row.duration.Some? && forall i | 0 <= i < |rows| :: rows[i].duration.Some?
    ensures Durations([row] + rows) == [row.duration.value] + Durations(rows)
  {
    var all := [row] + rows;
    forall i | 0 <= i < |all|
      ensures Durations(all)[i] == ([row.duration.value] + Durations(rows))[i]
    {
      if i > 0 {
        assert all[i] == rows[i - 1];
      }
    }
  }

  /**
    `get_participant_stats`: the figures over the meeting's participants whose duration is
    known; the others, and other meetings' rows, do not enter.
  */
  ghost function GetParticipantStats(t: Tables, meetingId: string): (s: ParticipantStats)
    requires WellKeyed(t)
    ensures var keys := TimedParticipantsOf(t.participants, meetingId);
      && s.totalParticipants == |keys|
      && (s.totalParticipants == 0 ==> s == ParticipantStats(0, 0.0, 0, 0, 0))
      && (forall k | k in keys :: s.minDuration <= t.participants[k].duration.value <= s.maxDuration)
      && (s.totalParticipants > 0 ==>
            && (exists k | k in keys :: t.participants[k].duration.value == s.minDuration)
            && (exists k | k in keys :: t.participants[k].duration.value == s.maxDuration))
      && s.totalDuration == TotalDuration(t.participants, keys)
      && (s.totalParticipants > 0 ==>
            s.avgDuration == TotalDuration(t.participants, keys) as real / s.totalParticipants as real)
  {
    var keys := TimedParticipantsOf(t.participants, meetingId);
    var rows := ParticipantRows(t.participants, keys);
    var ds := Durations(rows);
    DurationsListed(t.participants, keys, rows, ds);
    RowsTotal(t.participants, keys);
    Stats(ds)
  }

  /** The durations of the gathered rows are exactly those of the rows under `keys`. */
  lemma DurationsListed(
    participants: map<ParticipantKey, Participant>, keys: set<ParticipantKey>, rows: seq<Participant>, ds: seq<int>)
    requires ParticipantsKeyed(participants) && keys <= participants.Keys
    requires forall k | k in keys :: participants[k].duration.Some?
    requires rows == ParticipantRows(participants, keys) && ds == Durations(rows)
    ensures forall k | k in keys :: participants[k].duration.value in ds
    ensures forall d | d in ds :: exists k | k in keys :: participants[k].duration.value == d
  {
    forall k | k in keys
      ensures participants[k].duration.value in ds
    {
      var i :| 0 <= i < |rows| && rows[i] == participants[k];
      assert ds[i] == participants[k].duration.value;
    }
    forall d | d in ds
      ensures exists k | k in keys :: participants[k].duration.value == d
    {
      var i :| 0 <= i < |ds| && ds[i] == d;
      assert participants[rows[i].Key()].duration.value == d;
    }
  }

  /** With at least one timed participant, `min <= max` and the sum lies between the bounds. */
  lemma ParticipantStatsBounds(t: Tables, meetingId: string)
    requires WellKeyed(t) && GetParticipantStats(t, meetingId).totalParticipants > 0
    ensures var s := GetParticipantStats(t, meetingId);
      && s.minDuration <= s.maxDuration
      && s.totalParticipants * s.minDuration <= s.totalDuration <= s.totalParticipants * s.maxDuration
  {
    var keys := TimedParticipantsOf(t.participants, meetingId);
    var ds := Durations(ParticipantRows(t.participants, keys));
    StatsBounds(ds);
  }
}
