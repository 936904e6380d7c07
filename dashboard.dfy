/**
  The dashboard's `formatDuration`: hours and minutes only, seconds dropped. It shares the
  JavaScript arithmetic of the meeting detail page (`Hours`, `Minutes`, `DurationTruthy`).
*/
module Dashboard {
  import opened Wrappers
  import opened Numbers
  import opened Text
  import MeetingDetail

  /** `formatDuration(seconds)`: "N/A" when falsy, else "Hh Mm", or "Mm" under an hour. */
  function FormatDuration(seconds: Option<int>): (text: string)
    ensures text == "N/A" <==> !MeetingDetail.DurationTruthy(seconds)
  {
    if !MeetingDetail.DurationTruthy(seconds) then "N/A"
    else
      var s := seconds.value;
      var h, m := MeetingDetail.Hours(s), MeetingDetail.Minutes(s);
      var text := if h > 0 then IntToString(h) + "h " + IntToString(m) + "m" else IntToString(m) + "m";
      assert text[|text| - 1] == 'm';
      text
  }

  /**
    For a non-negative count the minutes stay below 60, and hours and minutes round the count
    down to the whole minute.
  */
  lemma RoundsDownToMinute(s: int)
    requires s >= 0
    ensures 0 <= MeetingDetail.Minutes(s) < 60
    ensures var whole := 3600 * MeetingDetail.Hours(s) + 60 * MeetingDetail.Minutes(s);
      whole <= s < whole + 60
  {
    MeetingDetail.Decompose(s);
  }

  /** Reads "Hh Mm" or "Mm" back as a number of seconds. */
  function ReadDuration(text: string): (r: Option<int>) {
    var parts := Split(text, ' ');
    if |parts| == 2 then
      match (MeetingDetail.ReadUnit(parts[0], 'h'), MeetingDetail.ReadUnit(parts[1], 'm'))
      case (Some(h), Some(m)) => Some(3600 * h + 60 * m)
      case _ => None
    else if |parts| == 1 then
      match MeetingDetail.ReadUnit(parts[0], 'm')
      case Some(m) => Some(60 * m)
      case None => None
    else None
  }

  /**
    The dashboard text for a positive count reads back as the count less its seconds past the
    minute, in two parts from an hour on and one part below.
  */
  lemma FormatDurationReadsBack(s: int)
    requires s > 0
    ensures ReadDuration(FormatDuration(Some(s))) == Some(s - s % 60)
    ensures |Split(FormatDuration(Some(s)), ' ')| == (if s >= 3600 then 2 else 1)
  {
    MeetingDetail.Decompose(s);
    var h, m := MeetingDetail.Hours(s), MeetingDetail.Minutes(s);
    assert MeetingDetail.Seconds(s) == s % 60;
    if h > 0 {
      assert FormatDuration(Some(s)) == NatToString(h) + "h " + NatToString(m) + "m";
      ReadHoursMinutes(h, m);
    } else {
      assert FormatDuration(Some(s)) == NatToString(m) + "m";
      ReadMinutes(m);
    }
  }

  lemma ReadHoursMinutes(h: nat, m: nat)
    ensures var text := NatToString(h) + "h " + NatToString(m) + "m";
      |Split(text, ' ')| == 2 && ReadDuration(text) == Some(3600 * h + 60 * m)
  {
    var text := NatToString(h) + "h " + NatToString(m) + "m";
    var parts := [NatToString(h) + "h", NatToString(m) + "m"];
    MeetingDetail.NoSpaceIn(h, 'h');
    MeetingDetail.NoSpaceIn(m, 'm');
    assert text == parts[0] + [' '] + parts[1];
    SplitTwoWords(parts[0], parts[1], ' ');
    MeetingDetail.ReadUnitOfNat(h, 'h');
    MeetingDetail.ReadUnitOfNat(m, 'm');
    ReadTwoParts(text, parts, h, m);
  }

  lemma ReadTwoParts(text: string, parts: seq<string>, h: nat, m: nat)
    requires Split(text, ' ') == parts && |parts| == 2
    requires MeetingDetail.ReadUnit(parts[0], 'h') == Some(h) && MeetingDetail.ReadUnit(parts[1], 'm') == Some(m)
    ensures ReadDuration(text) == Some(3600 * h + 60 * m)
  {}

  lemma ReadMinutes(m: nat)
    ensures var text := NatToString(m) + "m";
      |Split(text, ' ')| == 1 && ReadDuration(text) == Some(60 * m)
  {
    var text := NatToString(m) + "m";
    MeetingDetail.ReadUnitOfNat(m, 'm');
    SplitWithoutSeparator(text, ' ');
  }

  /**
    Both pages agree up to the seconds: the detail page's text is the dashboard's followed by
    the seconds part, and both show "N/A" for the same inputs.
  */
  lemma DashboardDropsSeconds(seconds: Option<int>)
    ensures FormatDuration(seconds) == "N/A" <==> MeetingDetail.FormatDuration(seconds) == "N/A"
    ensures MeetingDetail.DurationTruthy(seconds) ==>
      MeetingDetail.FormatDuration(seconds)
        == FormatDuration(seconds) + " " + IntToString(MeetingDetail.Seconds(seconds.value)) + "s"
  {
    if MeetingDetail.DurationTruthy(seconds) {
      var s := seconds.value;
      var h, m, sec := MeetingDetail.Hours(s), MeetingDetail.Minutes(s), MeetingDetail.Seconds(s);
      assert "h " + IntToString(m) + "m " == "h " + IntToString(m) + "m" + " ";
      assert "m " == "m" + " ";
    }
  }
}
