/**
  The meeting detail page: `formatDuration` (hours, minutes and seconds) and the chart of the ten
  longest-attending participants.

  The page works on the JSON the backend returns, and in JavaScript: `Math.floor(a / b)` is
  `FloorDiv`, `a % b` keeps the sign of `a` (`TruncRem`), and a number is falsy when it is null,
  missing or 0.
*/
module MeetingDetail {
  import opened Wrappers
  import opened Numbers
  import opened Text
  import opened Sorting

  /** `!seconds` is false: the value is present and not 0. */
  predicate DurationTruthy(d: Option<int>) {
    d.Some? && d.value != 0
  }

  function Hours(s: int): int {
    FloorDiv(s, 3600)
  }

  function Minutes(s: int): int {
    FloorDiv(TruncRem(s, 3600), 60)
  }

  function Seconds(s: int): int {
    TruncRem(s, 60)
  }

  /** For a non-negative count, whole hours, minutes below 60 and seconds below 60 rebuild it. */
  lemma Decompose(s: int)
    requires s >= 0
    ensures Hours(s) >= 0 && 0 <= Minutes(s) < 60 && 0 <= Seconds(s) < 60
    ensures 3600 * Hours(s) + 60 * Minutes(s) + Seconds(s) == s
  {
    var r := s % 3600;
    assert s == 3600 * (s / 3600) + r;
    assert r == 60 * (r / 60) + r % 60;
    assert s == 60 * (60 * (s / 3600) + r / 60) + r % 60;
    assert s % 60 == r % 60;
  }

  /** `formatDuration(seconds)`: "N/A" when falsy, else "Hh Mm Ss", or "Mm Ss" under an hour. */
  function FormatDuration(seconds: Option<int>): (text: string)
    ensures text == "N/A" <==> !DurationTruthy(seconds)
  {
    if !DurationTruthy(seconds) then "N/A"
    else
      var s := seconds.value;
      var text := if Hours(s) > 0 then IntToString(Hours(s)) + "h " + IntToString(Minutes(s)) + "m " + IntToString(Seconds(s)) + "s"
                  else IntToString(Minutes(s)) + "m " + IntToString(Seconds(s)) + "s";
      assert text[|text| - 1] == 's';
      text
  }

  /** A number followed by a unit letter, read back. */
  function ReadUnit(part: string, unit: char): (n: Option<nat>)
  {
    if |part| >= 2 && part[|part| - 1] == unit && AllDigits(part[..|part| - 1]) then
      Some(ParseNat(part[..|part| - 1]))
    else None
  }

  /** Reads "Hh Mm Ss" or "Mm Ss" back as a number of seconds. */
  function ReadDuration(text: string): (r: Option<int>) {
    var parts := Split(text, ' ');
    if |parts| == 3 then
      match (ReadUnit(parts[0], 'h'), ReadUnit(parts[1], 'm'), ReadUnit(parts[2], 's'))
      case (Some(h), Some(m), Some(s)) => Some(3600 * h + 60 * m + s)
      case _ => None
    else if |parts| == 2 then
      match (ReadUnit(parts[0], 'm'), ReadUnit(parts[1], 's'))
      case (Some(m), Some(s)) => Some(60 * m + s)
      case _ => None
    else None
  }

  lemma ReadUnitOfNat(n: nat, unit: char)
    requires !IsDigit(unit)
    ensures ReadUnit(NatToString(n) + [unit], unit) == Some(n)
    ensures ' ' != unit ==> ' ' !in NatToString(n) + [unit]
  {
    var part := NatToString(n) + [unit];
    assert part[..|part| - 1] == NatToString(n);
    ParseNatToString(n);
    assert forall i | 0 <= i < |part| - 1 :: IsDigit(part[i]);
  }

  /** A number with a unit letter holds no space, so splitting on spaces keeps it whole. */
  lemma NoSpaceIn(n: nat, unit: char)
    requires unit != ' '
    ensures ' ' !in NatToString(n) + [unit]
  {
    var part := NatToString(n) + [unit];
    assert forall i | 0 <= i < |part| - 1 :: part[i] == NatToString(n)[i] && IsDigit(part[i]);
  }

  /**
    The text `formatDuration` shows for a positive count reads back as that count: nothing is
    lost, and it has three parts exactly when the count reaches an hour.
  */
  lemma FormatDurationReadsBack(s: int)
    requires s > 0
    ensures ReadDuration(FormatDuration(Some(s))) == Some(s)
    ensures |Split(FormatDuration(Some(s)), ' ')| == (if s >= 3600 then 3 else 2)
  {
    Decompose(s);
    var h, m, sec := Hours(s), Minutes(s), Seconds(s);
    if h > 0 {
      assert FormatDuration(Some(s)) == NatToString(h) + "h " + NatToString(m) + "m " + NatToString(sec) + "s";
      ReadHoursMinutesSeconds(h, m, sec);
    } else {
      assert FormatDuration(Some(s)) == NatToString(m) + "m " + NatToString(sec) + "s";
      ReadMinutesSeconds(m, sec);
    }
  }

  lemma ReadHoursMinutesSeconds(h: nat, m: nat, sec: nat)
    ensures var text := NatToString(h) + "h " + NatToString(m) + "m " + NatToString(sec) + "s";
      |Split(text, ' ')| == 3 && ReadDuration(text) == Some(3600 * h + 60 * m + sec)
  {
    var text := NatToString(h) + "h " + NatToString(m) + "m " + NatToString(sec) + "s";
    var parts := [NatToString(h) + "h", NatToString(m) + "m", NatToString(sec) + "s"];
    SplitThree(text, parts, h, m, sec);
    ReadUnitOfNat(h, 'h');
    ReadUnitOfNat(m, 'm');
    ReadUnitOfNat(sec, 's');
    ReadThreeParts(text, parts, h, m, sec);
  }

  lemma ReadThreeParts(text: string, parts: seq<string>, h: nat, m: nat, sec: nat)
    requires Split(text, ' ') == parts && |parts| == 3
    requires ReadUnit(parts[0], 'h') == Some(h) && ReadUnit(parts[1], 'm') == Some(m) && ReadUnit(parts[2], 's') == Some(sec)
    ensures ReadDuration(text) == Some(3600 * h + 60 * m + sec)
  {}

  lemma SplitThree(text: string, parts: seq<string>, h: nat, m: nat, sec: nat)
    requires text == NatToString(h) + "h " + NatToString(m) + "m " + NatToString(sec) + "s"
    requires parts == [NatToString(h) + "h", NatToString(m) + "m", NatToString(sec) + "s"]
    ensures Split(text, ' ') == parts
  {
    NoSpaceIn(h, 'h');
    NoSpaceIn(m, 'm');
    NoSpaceIn(sec, 's');
    assert text == parts[0] + [' '] + parts[1] + [' '] + parts[2];
    SplitThreeWords(parts[0], parts[1], parts[2], ' ');
  }

  lemma ReadMinutesSeconds(m: nat, sec: nat)
    ensures var text := NatToString(m) + "m " + NatToString(sec) + "s";
      |Split(text, ' ')| == 2 && ReadDuration(text) == Some(60 * m + sec)
  {
    var text := NatToString(m) + "m " + NatToString(sec) + "s";
    var parts := [NatToString(m) + "m", NatToString(sec) + "s"];
    SplitTwo(text, parts, m, sec);
    ReadUnitOfNat(m, 'm');
    ReadUnitOfNat(sec, 's');
    ReadTwoParts(text, parts, m, sec);
  }

  lemma ReadTwoParts(text: string, parts: seq<string>, m: nat, sec: nat)
    requires Split(text, ' ') == parts && |parts| == 2
    requires ReadUnit(parts[0], 'm') == Some(m) && ReadUnit(parts[1], 's') == Some(sec)
    ensures ReadDuration(text) == Some(60 * m + sec)
  {}

  lemma SplitTwo(text: string, parts: seq<string>, m: nat, sec: nat)
    requires text == NatToString(m) + "m " + NatToString(sec) + "s"
    requires parts == [NatToString(m) + "m", NatToString(sec) + "s"]
    ensures Split(text, ' ') == parts
  {
    NoSpaceIn(m, 'm');
    NoSpaceIn(sec, 's');
    assert text == parts[0] + [' '] + parts[1];
    SplitTwoWords(parts[0], parts[1], ' ');
  }

  // ---------------------------------------------------------------------------------------
  // chartData

  /** The fields of a participant the chart reads. */
  datatype ParticipantJson = ParticipantJson(userName: Option<string>, userEmail: Option<string>, duration: Option<int>)

  /** One bar: a label and whole minutes. */
  datatype ChartEntry = ChartEntry(name: string, duration: int)

  const ChartSize: nat := 10
  const UnknownLabel: string := "Unknown"

  /** `p.user_name || p.user_email || 'Unknown'`. */
  function ChartLabel(p: ParticipantJson): (name: string)
    ensures Truthy(p.userName) ==> name == p.userName.value
    ensures !Truthy(p.userName) && Truthy(p.userEmail) ==> name == p.userEmail.value
    ensures !Truthy(p.userName) && !Truthy(p.userEmail) ==> name == UnknownLabel
    ensures name != ""
  {
    if Truthy(p.userName) then p.userName.value
    else if Truthy(p.userEmail) then p.userEmail.value
    else UnknownLabel
  }

  /** `.filter(p => p.duration)`: the participants with a truthy duration, in order. */
  function Timed(ps: seq<ParticipantJson>): (r: seq<ParticipantJson>)
    ensures |r| <= |ps|
    ensures forall i | 0 <= i < |r| :: DurationTruthy(r[i].duration) && r[i] in ps
    ensures forall p | p in ps && DurationTruthy(p.duration) :: p in r
  {
    if ps == [] then []
    else (if DurationTruthy(ps[0].duration) then [ps[0]] else []) + Timed(ps[1..])
  }

  /** `.map(...)`: the label and `Math.floor(duration / 60)` minutes. */
  function ToEntry(p: ParticipantJson): (e: ChartEntry)
    requires DurationTruthy(p.duration)
    ensures 60 * e.duration <= p.duration.value < 60 * e.duration + 60
  {
    ChartEntry(ChartLabel(p), FloorDiv(p.duration.value, 60))
  }

  function Entries(ps: seq<ParticipantJson>): (es: seq<ChartEntry>)
    requires forall i | 0 <= i < |ps| :: DurationTruthy(ps[i].duration)
    ensures |es| == |ps|
    ensures forall i | 0 <= i < |es| :: es[i] == ToEntry(ps[i])
  {
    seq(|ps|, i requires 0 <= i < |ps| => ToEntry(ps[i]))
  }

  /** `.sort((a, b) => b.duration - a.duration)`: longest first. */
  predicate LongerOrEqual(a: ChartEntry, b: ChartEntry) {
    a.duration >= b.duration
  }

  lemma LongestFirstIsTotal()
    ensures TotalPreorder(LongerOrEqual)
  {}

  /** Every bar the participants give, longest first; equal lengths keep the list's order. */
  function RankedEntries(ps: seq<ParticipantJson>): (r: seq<ChartEntry>)
    ensures SortedBy(r, LongerOrEqual)
    ensures multiset(r) == multiset(Entries(Timed(ps)))
  {
    LongestFirstIsTotal();
    InsertionSort(Entries(Timed(ps)), LongerOrEqual)
  }

  /** `chartData`: the ten longest bars (`meeting.participants || []` when there are none). */
  function ChartData(participants: Option<seq<ParticipantJson>>): (r: seq<ChartEntry>)
    ensures |r| <= ChartSize
  {
    var ranked := RankedEntries(participants.GetOr([]));
    if |ranked| <= ChartSize then ranked else ranked[..ChartSize]
  }

  /**
    The chart shows `min(10, n)` bars for the `n` participants with a truthy duration, longest
    first, each the label and whole minutes of such a participant.
  */
  lemma ChartDataShape(participants: Option<seq<ParticipantJson>>)
    ensures var ps := participants.GetOr([]);
      var r := ChartData(participants);
      && |r| == (if |Timed(ps)| <= ChartSize then |Timed(ps)| else ChartSize)
      && SortedBy(r, LongerOrEqual)
      && forall e | e in r :: exists p | p in ps && DurationTruthy(p.duration) :: e == ToEntry(p)
  {
    var ps := participants.GetOr([]);
    var ranked := RankedEntries(ps);
    var es := Entries(Timed(ps));
    var r := ChartData(participants);
    assert |ranked| == |es| by {
      assert |multiset(ranked)| == |multiset(es)|;
    }
    ChartIsPrefix(participants);
    PrefixHoldsEntries(ranked, es, r);
    EntriesComeFromTimed(ps);
  }

  /** The chart is the first bars of the ranking. */
  lemma ChartIsPrefix(participants: Option<seq<ParticipantJson>>)
    ensures var r := ChartData(participants);
      var ranked := RankedEntries(participants.GetOr([]));
      |r| <= |ranked| && r == ranked[..|r|]
  {
    var ranked := RankedEntries(participants.GetOr([]));
    assert ranked[..|ranked|] == ranked;
  }

  /** Every bar of a prefix of a rearrangement of `es` is one of `es`. */
  lemma PrefixHoldsEntries(ranked: seq<ChartEntry>, es: seq<ChartEntry>, r: seq<ChartEntry>)
    requires multiset(ranked) == multiset(es)
    requires |r| <= |ranked| && r == ranked[..|r|]
    ensures forall e | e in r :: e in es
  {
    forall e | e in r
      ensures e in es
    {
      assert e in ranked;
      assert e in multiset(ranked);
    }
  }

  /** Every bar stands for a participant with a truthy duration. */
  lemma EntriesComeFromTimed(ps: seq<ParticipantJson>)
    ensures forall e | e in Entries(Timed(ps)) :: exists p | p in ps && DurationTruthy(p.duration) :: e == ToEntry(p)
  {
    var es := Entries(Timed(ps));
    forall e | e in es
      ensures exists p | p in ps && DurationTruthy(p.duration) :: e == ToEntry(p)
    {
      var i :| 0 <= i < |es| && es[i] == e;
      var p := Timed(ps)[i];
      assert p in ps && e == ToEntry(p);
    }
  }

  /**
    The chart is the top ten: a bar left off is no longer than every bar shown, and with at
    most ten timed participants every bar is shown.
  */
  lemma ChartDataIsTop(participants: Option<seq<ParticipantJson>>)
    ensures var es := Entries(Timed(participants.GetOr([])));
      var r := ChartData(participants);
      && (|es| <= ChartSize ==> multiset(r) == multiset(es))
      && (forall e, i | e in es && 0 <= i < |r| && e.duration > r[i].duration :: e in r)
  {
    var ps := participants.GetOr([]);
    var ranked := RankedEntries(ps);
    var es := Entries(Timed(ps));
    var r := ChartData(participants);
    assert |ranked| == |es| by {
      assert |multiset(ranked)| == |multiset(es)|;
    }
    ChartIsPrefix(participants);
    LongerIsShown(ranked, es, r);
  }

  /** In a prefix of a longest-first ranking, anything longer than a shown bar is shown too. */
  lemma LongerIsShown(ranked: seq<ChartEntry>, es: seq<ChartEntry>, r: seq<ChartEntry>)
    requires SortedBy(ranked, LongerOrEqual) && multiset(ranked) == multiset(es)
    requires |r| <= |ranked| && r == ranked[..|r|]
    ensures forall e, i | e in es && 0 <= i < |r| && e.duration > r[i].duration :: e in r
  {
    forall e, i | e in es && 0 <= i < |r| && e.duration > r[i].duration
      ensures e in r
    {
      assert e in multiset(es);
      assert e in multiset(ranked);
      var j :| 0 <= j < |ranked| && ranked[j] == e;
      assert r[i] == ranked[i];
      assert j < i;
      assert r[j] == e;
    }
  }

  /** Bars of equal length appear in the order of the participant list (the sort is stable). */
  lemma ChartOrderIsStable(ps: seq<ParticipantJson>, e: ChartEntry)
    ensures EquivalentsOf(RankedEntries(ps), e, LongerOrEqual) == EquivalentsOf(Entries(Timed(ps)), e, LongerOrEqual)
  {
    LongestFirstIsTotal();
    SortIsStable(Entries(Timed(ps)), e, LongerOrEqual);
  }
}
