/**
 * Teachers' working hours, the free-slot finder and the teacher finder.
 *
 * A teacher's weekly working-hours templates are resolved to a concrete
 * window for a date; the finder lays a grid of `period`-spaced start times
 * over that window and drops every start time whose slot overlaps one of
 * the teacher's timeline entries. Asked for a lesson type instead, it lists
 * the start times of the teacher's entries of that type on the date.
 */
module Teachers {
  import opened Wrappers
  import opened Calendar
  import opened Ids

  /** A weekly template: on `weekday` (Monday = 0) the teacher works from `start` to `end` (minutes after midnight). */
  datatype WorkingHours = WorkingHours(teacher: TeacherId, weekday: int, start: int, end: int)

  /** Working hours resolved to instants of one date. */
  datatype Window = Window(start: int, end: int)

  /**
   * A booked entry on a teacher's timeline, occupying the instants [start, end).
   * This is the stored row the finder reads, a value; `Hub.Entry` is the
   * in-memory object a class is attached to, whose identity and flags matter
   * there but whose end time the scheduling checks never read.
   */
  datatype TimelineEntry = TimelineEntry(teacher: TeacherId, lessonType: LessonType, start: int, end: int)

  /** The slot length used when the caller gives none: 30 minutes. */
  const DefaultPeriod := 30

  predicate Covers(w: WorkingHours, teacher: TeacherId, date: Date)
  {
    w.teacher == teacher && w.weekday == Weekday(date)
  }

  function Resolve(w: WorkingHours, date: Date): Window
  {
    Window(At(date, w.start), At(date, w.end))
  }

  /** Index of the first template covering `date` for `teacher`, or |templates| if none does. */
  function FirstCovering(templates: seq<WorkingHours>, teacher: TeacherId, date: Date): (k: nat)
    ensures k <= |templates|
    ensures forall j :: 0 <= j < k ==> !Covers(templates[j], teacher, date)
    ensures k < |templates| ==> Covers(templates[k], teacher, date)
  {
    if templates == [] then 0
    else if Covers(templates[0], teacher, date) then 0
    else 1 + FirstCovering(templates[1..], teacher, date)
  }

  /**
   * `WorkingHours.objects.for_date`: the teacher's hours on `date` combined
   * with that date, or None (never a failure) when no template has its weekday.
   */
  function ForDate(templates: seq<WorkingHours>, teacher: TeacherId, date: Date): (r: Option<Window>)
    ensures r.None? <==> forall j :: 0 <= j < |templates| ==> !Covers(templates[j], teacher, date)
    ensures r.Some? ==> exists j :: 0 <= j < |templates| && Covers(templates[j], teacher, date)
                                    && r.value == Resolve(templates[j], date)
  {
    var k := FirstCovering(templates, teacher, date);
    if k < |templates| then Some(Resolve(templates[k], date)) else None
  }

  /** Half-open intervals [aStart, aEnd) and [bStart, bEnd) share an instant. */
  predicate Overlaps(aStart: int, aEnd: int, bStart: int, bEnd: int)
  {
    aStart < bEnd && bStart < aEnd
  }

  predicate StrictlyIncreasing(s: seq<int>)
  {
    forall i, j :: 0 <= i < j < |s| ==> s[i] < s[j]
  }

  /**
   * The start times start, start + period, ... that lie before `end`: as many
   * as the window holds periods, rounded up (the last slot is not clipped).
   */
  function SlotStarts(start: int, end: int, period: int): (r: seq<int>)
    requires period > 0
    ensures start >= end ==> r == []
    ensures start < end ==> (|r| - 1) * period < end - start <= |r| * period
    ensures forall k :: 0 <= k < |r| ==> r[k] == start + k * period && start <= r[k] < end
    ensures StrictlyIncreasing(r)
    decreases end - start
  {
    if start < end then
      var rest := SlotStarts(start + period, end, period);
      var r := [start] + rest;
      assert forall k :: 1 <= k < |r| ==> r[k] == rest[k - 1] == start + period + (k - 1) * period;
      ConsIncreasing(start, rest);
      r
    else []
  }

  lemma ConsIncreasing(x: int, rest: seq<int>)
    ensures StrictlyIncreasing(rest) && (forall s :: s in rest ==> x < s) ==> StrictlyIncreasing([x] + rest)
  {
    if StrictlyIncreasing(rest) && (forall s :: s in rest ==> x < s) {
      var r := [x] + rest;
      forall i, j | 0 <= i < j < |r| ensures r[i] < r[j] {
        assert r[j] == rest[j - 1] && rest[j - 1] in rest;
        if i > 0 { assert r[i] == rest[i - 1]; }
      }
    }
  }

  /** Some entry of `teacher` overlaps the slot [s, e). */
  predicate Busy(entries: seq<TimelineEntry>, teacher: TeacherId, s: int, e: int)
  {
    exists i :: 0 <= i < |entries| && entries[i].teacher == teacher
                && Overlaps(s, e, entries[i].start, entries[i].end)
  }

  /** The start times whose whole slot [s, s + period) is clear of the teacher's entries. */
  function Unbooked(slots: seq<int>, period: int, entries: seq<TimelineEntry>, teacher: TeacherId): (r: seq<int>)
    ensures forall s :: s in r <==> s in slots && !Busy(entries, teacher, s, s + period)
    ensures |r| <= |slots|
    ensures StrictlyIncreasing(slots) ==> StrictlyIncreasing(r)
  {
    if slots == [] then []
    else
      var rest := Unbooked(slots[1..], period, entries, teacher);
      assert StrictlyIncreasing(slots) ==> StrictlyIncreasing(slots[1..]) && forall s :: s in rest ==> slots[0] < s by {
        if StrictlyIncreasing(slots) {
          forall s | s in rest ensures slots[0] < s {
            var k :| 0 <= k < |slots[1..]| && slots[1..][k] == s;
            assert slots[k + 1] == s;
          }
        }
      }
      ConsIncreasing(slots[0], rest);
      if Busy(entries, teacher, slots[0], slots[0] + period) then rest else [slots[0]] + rest
  }

  /** The teacher's entries of `lessonType` that start on `date`. */
  predicate Hosts(e: TimelineEntry, teacher: TeacherId, date: Date, lessonType: LessonType)
  {
    e.teacher == teacher && e.lessonType == lessonType && At(date, 0) <= e.start < At(date, MinutesPerDay)
  }

  /** The start times of the teacher's entries of `lessonType` on `date`, in table order. */
  function LessonSlots(entries: seq<TimelineEntry>, teacher: TeacherId, date: Date, lessonType: LessonType): (r: seq<int>)
    ensures forall s :: s in r <==> exists i :: 0 <= i < |entries| && Hosts(entries[i], teacher, date, lessonType)
                                                && entries[i].start == s
    ensures |r| <= |entries|
  {
    if entries == [] then []
    else
      var rest := LessonSlots(entries[1..], teacher, date, lessonType);
      assert forall i :: 1 <= i < |entries| ==> entries[i] == entries[1..][i - 1];
      if Hosts(entries[0], teacher, date, lessonType) then [entries[0].start] + rest else rest
  }

  /**
   * `Teacher.find_free_slots`. Without a lesson type: None when the teacher
   * does not work on `date`, otherwise the grid over the working hours minus
   * every slot an entry of the teacher overlaps. With a lesson type: the
   * teacher's entries of that type on `date` -- possibly empty, never None.
   */
  function FindFreeSlots(templates: seq<WorkingHours>, entries: seq<TimelineEntry>, teacher: TeacherId,
                         date: Date, period: int := DefaultPeriod, lessonType: Option<LessonType> := None)
    : (r: Option<seq<int>>)
    requires period > 0
    ensures lessonType.Some? ==> r == Some(LessonSlots(entries, teacher, date, lessonType.value))
    ensures lessonType.None? ==> (r.None? <==> ForDate(templates, teacher, date).None?)
    ensures lessonType.None? && r.Some? ==>
      var w := ForDate(templates, teacher, date).value;
      && StrictlyIncreasing(r.value)
      && (forall s :: s in r.value <==> s in SlotStarts(w.start, w.end, period)
                                          && !Busy(entries, teacher, s, s + period))
  {
    if lessonType.Some? then Some(LessonSlots(entries, teacher, date, lessonType.value))
    else match ForDate(templates, teacher, date)
      case None => None
      case Some(w) =>
        Some(Unbooked(SlotStarts(w.start, w.end, period), period, entries, teacher))
  }

  /** The finder found at least one slot: the teacher counts as free. */
  predicate HasFreeSlot(templates: seq<WorkingHours>, entries: seq<TimelineEntry>, teacher: TeacherId,
                        date: Date, lessonType: Option<LessonType>)
  {
    var slots := FindFreeSlots(templates, entries, teacher, date, DefaultPeriod, lessonType);
    slots.Some? && |slots.value| > 0
  }

  /** `Teacher.objects.find_free`: the teachers, in table order, with a free slot on `date`. */
  function FindFree(templates: seq<WorkingHours>, entries: seq<TimelineEntry>, teachers: seq<TeacherId>,
                    date: Date, lessonType: Option<LessonType> := None): (r: seq<TeacherId>)
    ensures forall t :: t in r <==> t in teachers && HasFreeSlot(templates, entries, t, date, lessonType)
    ensures |r| <= |teachers|
  {
    if teachers == [] then []
    else
      var rest := FindFree(templates, entries, teachers[1..], date, lessonType);
      assert forall t :: t in teachers[1..] ==> t in teachers;
      if HasFreeSlot(templates, entries, teachers[0], date, lessonType) then [teachers[0]] + rest else rest
  }

  /** `as_dict` of a slot list: each slot rendered "HH:MM", in slot order. */
  function AsDict(slots: seq<int>): (r: seq<string>)
    ensures |r| == |slots|
    ensures forall i :: 0 <= i < |r| ==> ParseHourMinute(r[i]) == Some(MinuteOfDay(slots[i]))
  {
    seq(|slots|, i requires 0 <= i < |slots| => HourMinute(slots[i]))
  }

  /** With no entries at all, every grid point is a free slot. */
  lemma {:induction false} NoEntriesAllFree(slots: seq<int>, period: int, teacher: TeacherId)
    ensures Unbooked(slots, period, [], teacher) == slots
  {
    if slots != [] {
      NoEntriesAllFree(slots[1..], period, teacher);
      assert slots == [slots[0]] + slots[1..];
    }
  }

  /** Entries of other teachers never change a teacher's free slots. */
  lemma {:induction false} OtherTeachersIgnored(slots: seq<int>, period: int, entries: seq<TimelineEntry>,
                                                teacher: TeacherId, other: TimelineEntry)
    requires other.teacher != teacher
    ensures Unbooked(slots, period, entries + [other], teacher) == Unbooked(slots, period, entries, teacher)
  {
    if slots != [] {
      OtherTeachersIgnored(slots[1..], period, entries, teacher, other);
      var s := slots[0];
      if Busy(entries + [other], teacher, s, s + period) {
        var i :| 0 <= i < |entries + [other]| && (entries + [other])[i].teacher == teacher
                 && Overlaps(s, s + period, (entries + [other])[i].start, (entries + [other])[i].end);
        assert i < |entries| && (entries + [other])[i] == entries[i];
      }
      if Busy(entries, teacher, s, s + period) {
        var i :| 0 <= i < |entries| && entries[i].teacher == teacher
                 && Overlaps(s, s + period, entries[i].start, entries[i].end);
        assert (entries + [other])[i] == entries[i];
      }
    }
  }

  /** The lesson-type listing ignores other teachers' entries too. */
  lemma OtherTeachersIgnoredByLessonType(entries: seq<TimelineEntry>, teacher: TeacherId, date: Date,
                                         lessonType: LessonType, other: TimelineEntry)
    requires other.teacher != teacher
    ensures forall s :: s in LessonSlots(entries + [other], teacher, date, lessonType)
                    <==> s in LessonSlots(entries, teacher, date, lessonType)
  {
    var both := entries + [other];
    forall s ensures s in LessonSlots(both, teacher, date, lessonType) ==> s in LessonSlots(entries, teacher, date, lessonType) {
      if s in LessonSlots(both, teacher, date, lessonType) {
        var i :| 0 <= i < |both| && Hosts(both[i], teacher, date, lessonType) && both[i].start == s;
        assert i < |entries| && both[i] == entries[i];
      }
    }
    forall s ensures s in LessonSlots(entries, teacher, date, lessonType) ==> s in LessonSlots(both, teacher, date, lessonType) {
      if s in LessonSlots(entries, teacher, date, lessonType) {
        var i :| 0 <= i < |entries| && Hosts(entries[i], teacher, date, lessonType) && entries[i].start == s;
        assert both[i] == entries[i];
      }
    }
  }

  /**
   * Against a single entry [a, b), a slot is dropped exactly when it overlaps
   * it: a slot that only touches the entry's start or end is kept, and one
   * that overlaps it partially is dropped whole.
   */
  lemma SingleEntryDropsExactlyOverlapping(slots: seq<int>, period: int, e: TimelineEntry, s: int)
    requires s in slots
    ensures s in Unbooked(slots, period, [e], e.teacher) <==> (s + period <= e.start || e.end <= s)
  {
    if Busy([e], e.teacher, s, s + period) {
      var i :| 0 <= i < 1 && [e][i].teacher == e.teacher && Overlaps(s, s + period, [e][i].start, [e][i].end);
    } else {
      assert !Overlaps(s, s + period, [e][0].start, [e][0].end);
    }
  }

}
