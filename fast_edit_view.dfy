/**
 * `FastEditView`: the sheet that edits a logged fast. Its state is the log
 * being edited and the two times picked so far; the duration, its text, the
 * warning and whether Save is enabled are all derived from those two times.
 */
module FastEdit {
  import opened Wrappers
  import opened TimeUnits
  import opened Decimal

  /** A logged fast: `date` is when it ended, `startTime` when it began. */
  datatype FastingLog = FastingLog(date: int, duration: int, startTime: int)

  /** The view's `@State`: the edited start and end times. */
  datatype FastEditor = FastEditor(fast: FastingLog, editedStartTime: int, editedEndTime: int)

  /** `init(fast:onSave:)`: the pickers start at the log's own start and end. */
  function OpenEditor(fast: FastingLog): FastEditor
  {
    FastEditor(fast, fast.startTime, fast.date)
  }

  /** `editedDuration`: end minus start, negative when the end was picked before the start. */
  function EditedDuration(e: FastEditor): (d: int)
    ensures e.editedStartTime + d == e.editedEndTime
  {
    e.editedEndTime - e.editedStartTime
  }

  datatype HoursMinutes = HoursMinutes(hours: int, minutes: int)

  /** Whole hours and the whole minutes left over, both truncated toward zero. */
  function DurationFields(d: int): (hm: HoursMinutes)
    ensures d >= 0 ==> hm.hours >= 0 && 0 <= hm.minutes <= 59
    ensures d >= 0 ==> hm.hours * 3600 + hm.minutes * 60 <= d < hm.hours * 3600 + hm.minutes * 60 + 60
    ensures d <= 0 ==> hm.hours <= 0 && -59 <= hm.minutes <= 0
    ensures hm.hours * 3600 + hm.minutes * 60 == d - Rem(d, 60)
  {
    HoursThenMinutes(d);
    var r := Rem(d, SecondsPerHour);
    assert r == Quot(r, 60) * 60 + Rem(r, 60);
    HoursMinutes(Quot(d, SecondsPerHour), Quot(r, SecondsPerMinute))
  }

  /** `durationText`: the hours, "h ", the minutes, then "m". */
  function DurationText(e: FastEditor): string
  {
    var hm := DurationFields(EditedDuration(e));
    IntString(hm.hours) + "h " + IntString(hm.minutes) + "m"
  }

  /** Reads "<h>h <m>m" back into seconds. */
  function ParseDurationText(s: string): Option<int>
  {
    match FirstIndexOf(s, 'h')
    case None => None
    case Some(i) =>
      if i + 2 < |s| && s[i + 1] == ' ' && s[|s| - 1] == 'm' then
        var hours, minutes := ParseInt(s[..i]), ParseInt(s[i + 2..|s| - 1]);
        if hours.Some? && minutes.Some? then Some(hours.value * 3600 + minutes.value * 60) else None
      else None
  }

  /** Joining two numerals as "<hs>h <ms>m" reads back as the hours and minutes they denote. */
  lemma ParseDurationJoin(hs: string, ms: string, h: int, m: int)
    requires NumeralChars(hs) && ParseInt(hs) == Some(h) && ParseInt(ms) == Some(m)
    ensures ParseDurationText(hs + "h " + ms + "m") == Some(h * 3600 + m * 60)
  {
    var s := hs + "h " + ms + "m";
    assert s == hs + ['h'] + (" " + ms + "m");
    NumeralLacks(hs, 'h');
    FirstIndexAfter(hs, 'h', " " + ms + "m");
    assert |hs| + 2 < |s| && s[|hs| + 1] == ' ' && s[|s| - 1] == 'm';
    assert s[..|hs|] == hs;
    assert s[|hs| + 2..|s| - 1] == ms;
  }

  /** Any "<h>h <m>m" written with Swift's numerals reads back as h hours and m minutes. */
  lemma ParseHoursMinutes(h: int, m: int)
    ensures ParseDurationText(IntString(h) + "h " + IntString(m) + "m") == Some(h * 3600 + m * 60)
  {
    IntStringRoundTrip(h);
    IntStringRoundTrip(m);
    ParseDurationJoin(IntString(h), IntString(m), h, m);
  }

  /** The duration text reads back as the edited duration truncated toward zero to a whole minute. */
  lemma DurationTextRoundTrip(e: FastEditor)
    ensures ParseDurationText(DurationText(e)) == Some(EditedDuration(e) - Rem(EditedDuration(e), 60))
  {
    var hm := DurationFields(EditedDuration(e));
    ParseHoursMinutes(hm.hours, hm.minutes);
  }

  /** Save can be pressed only when the end is after the start. */
  function SaveEnabled(e: FastEditor): (enabled: bool)
    ensures enabled <==> e.editedStartTime < e.editedEndTime
  {
    !(EditedDuration(e) <= 0)
  }

  /** The warning that the end must come after the start, shown while the duration is not positive. */
  function ShowsOrderWarning(e: FastEditor): (shown: bool)
    ensures shown <==> e.editedEndTime <= e.editedStartTime
  {
    EditedDuration(e) <= 0
  }

  /** The warning is shown exactly when Save is disabled. */
  lemma WarningIffSaveDisabled(e: FastEditor)
    ensures ShowsOrderWarning(e) <==> !SaveEnabled(e)
  {
  }

  /** Pressing Save: the log handed to `onSave`, or nothing while the button is disabled. */
  function Save(e: FastEditor): (r: Option<FastingLog>)
    ensures r.Some? <==> e.editedStartTime < e.editedEndTime
    ensures r.Some? ==> r.value.startTime == e.editedStartTime && r.value.date == e.editedEndTime
    ensures r.Some? ==> r.value.duration > 0 && r.value.startTime + r.value.duration == r.value.date
  {
    if SaveEnabled(e) then
      Some(FastingLog(e.editedEndTime, EditedDuration(e), e.editedStartTime))
    else None
  }

  /** Saving without editing gives back the log, once its duration agrees with its times; a log whose end is not after its start cannot be saved. */
  lemma UneditedSaveRoundTrip(fast: FastingLog)
    ensures fast.startTime < fast.date && fast.duration == fast.date - fast.startTime
      ==> Save(OpenEditor(fast)) == Some(fast)
    ensures fast.date <= fast.startTime ==> Save(OpenEditor(fast)) == None
  {
  }
}
