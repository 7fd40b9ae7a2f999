// The date range an education card shows, read from the entry's `dates`
// text by splitting on '-'. Both templates use the same parseDates.
module Education {
  import opened Text

  datatype DateRange = DateRange(startDate: string, endDate: string)

  /**
   * parseDates: an empty text starts nowhere and runs to the present;
   * otherwise the start is the trimmed text before the first '-', and the
   * end the trimmed text between the first and the second '-', or
   * "Present" when there is none or it is blank.
   */
  function ParseDates(dateString: string): (r: DateRange)
    ensures r.endDate != ""
    ensures dateString == "" ==> r == DateRange("", "Present")
  {
    if dateString == "" then DateRange("", "Present")
    else SegmentDates(Split(dateString, '-'))
  }

  /** The range read from the '-'-separated segments of a non-empty text. */
  function SegmentDates(parts: seq<string>): (r: DateRange)
    requires |parts| > 0
    ensures r.endDate != ""
  {
    var startDate := Trim(parts[0]);
    var endDate := if |parts| > 1 then Trim(parts[1]) else "Present";
    DateRange(startDate, if endDate == "" then "Present" else endDate)
  }

  /** Neither date holds a '-' or starts or ends with whitespace; the end is "Present" or a given segment. */
  lemma DatesAreTrimmedSegments(dateString: string)
    ensures var r := ParseDates(dateString);
      '-' !in r.startDate && '-' !in r.endDate
      && (r.startDate == [] || (!IsSpace(r.startDate[0]) && !IsSpace(r.startDate[|r.startDate| - 1])))
      && (r.endDate == "Present" || (!IsSpace(r.endDate[0]) && !IsSpace(r.endDate[|r.endDate| - 1])))
  {
    if dateString != "" {
      var parts := Split(dateString, '-');
      assert '-' !in parts[0] && (|parts| > 1 ==> '-' !in parts[1]);
      SegmentsTrimmed(parts);
    }
  }

  /** The same for the segments of any split text. */
  lemma SegmentsTrimmed(parts: seq<string>)
    requires |parts| > 0 && '-' !in parts[0] && (|parts| > 1 ==> '-' !in parts[1])
    ensures var r := SegmentDates(parts);
      '-' !in r.startDate && '-' !in r.endDate
      && (r.startDate == [] || (!IsSpace(r.startDate[0]) && !IsSpace(r.startDate[|r.startDate| - 1])))
      && (r.endDate == "Present" || (!IsSpace(r.endDate[0]) && !IsSpace(r.endDate[|r.endDate| - 1])))
  {
    var r := SegmentDates(parts);
    TrimmedSegment(parts[0]);
    if |parts| > 1 && Trim(parts[1]) != "" {
      TrimmedSegment(parts[1]);
      assert r.endDate == Trim(parts[1]);
    } else {
      assert r.endDate == "Present";
      PresentHasNoDash();
    }
  }

  lemma PresentHasNoDash()
    ensures '-' !in "Present"
  {
  }

  /** A trimmed '-'-free segment. */
  lemma TrimmedSegment(part: string)
    requires '-' !in part
    ensures var t := Trim(part);
      '-' !in t && (t == [] || (!IsSpace(t[0]) && !IsSpace(t[|t| - 1])))
  {
    TrimKeepsOut(part, '-');
  }

  /** Trimming only drops characters. */
  lemma TrimKeepsOut(s: string, c: char)
    requires c !in s
    ensures c !in Trim(s)
  {
    var r := Trim(s);
    var k: nat :| OccursAt(s, r, k);
    forall i | 0 <= i < |r| ensures r[i] != c {
      assert r[i] == s[k + i];
    }
  }

  /** The dates as each template passes them: a missing `dates` reads like the empty text. */
  function EntryDates(dates: Option<string>): (r: DateRange)
    ensures dates.None? ==> r == DateRange("", "Present")
    ensures dates.Some? ==> r == ParseDates(dates.value)
  {
    ParseDates(dates.GetOr(""))
  }

  /** "start - end" with '-'-free halves gives both halves trimmed, when the end is not blank. */
  lemma StartAndEnd(start: string, end: string)
    requires '-' !in start && '-' !in end && Trim(end) != ""
    ensures ParseDates(start + "-" + end) == DateRange(Trim(start), Trim(end))
  {
    TwoSegments(start, end);
  }

  lemma TwoSegments(start: string, end: string)
    requires '-' !in start && '-' !in end
    ensures Split(start + "-" + end, '-') == [start, end]
  {
    SplitConcat(start, end, '-');
    SplitWithoutSeparator(start, '-');
    SplitWithoutSeparator(end, '-');
    assert start + "-" + end == start + ['-'] + end;
  }

  /** A text without '-' is all start, and the range is open. */
  lemma StartOnly(start: string)
    requires '-' !in start && start != ""
    ensures ParseDates(start) == DateRange(Trim(start), "Present")
  {
    SplitWithoutSeparator(start, '-');
  }

  /** "start -" with a blank end also runs to the present. */
  lemma BlankEndIsPresent(start: string, end: string)
    requires '-' !in start && '-' !in end && Trim(end) == ""
    ensures ParseDates(start + "-" + end) == DateRange(Trim(start), "Present")
  {
    TwoSegments(start, end);
  }

  /**
   * Only the first two segments count: whatever follows a second '-' is
   * dropped, so in "2020-05 - 2022-06" the end is the month "05".
   */
  lemma LaterSegmentsDropped(start: string, end: string, rest: string)
    requires '-' !in start && '-' !in end && Trim(end) != ""
    ensures ParseDates(start + "-" + end + "-" + rest) == DateRange(Trim(start), Trim(end))
  {
    var s := start + "-" + end + "-" + rest;
    var tail := end + ['-'] + rest;
    assert s == start + ['-'] + tail;
    SplitConcat(start, tail, '-');
    SplitConcat(end, rest, '-');
    SplitWithoutSeparator(start, '-');
    SplitWithoutSeparator(end, '-');
    var parts := Split(s, '-');
    assert parts == [start] + ([end] + Split(rest, '-'));
    assert parts[0] == start && parts[1] == end;
    assert ParseDates(s) == SegmentDates(parts);
  }
}
