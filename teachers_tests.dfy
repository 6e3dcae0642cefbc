/**
 * The free-slot and teacher-finder cases of teachers/tests_unit.py, stated
 * over the model: one tutor works Mondays 13:00-15:00 and Tuesdays
 * 17:00-19:00; 2016-07-18 is a Monday and 2016-07-20 a Wednesday.
 */
module TeacherCases {
  import opened Wrappers
  import opened Calendar
  import opened Ids
  import opened Teachers

  const Tutor: TeacherId := 1
  const OtherTutor: TeacherId := 2
  const OrdinaryLesson: LessonType := 10
  const MasterClass: LessonType := 11

  const July18 := Date(2016, 7, 18)
  const July20 := Date(2016, 7, 20)

  const Templates := [WorkingHours(Tutor, 0, 13 * 60, 15 * 60), WorkingHours(Tutor, 1, 17 * 60, 19 * 60)]

  /** 2016-07-18 00:00, in minutes since 1970-01-01 00:00. */
  const MondayMidnight := 24480000

  /** The instant `h`:`m` on 2016-07-18. */
  function Monday(h: int, m: int): int
  {
    MondayMidnight + h * MinutesPerHour + m
  }

  lemma CalendarFacts()
    ensures DayNumber(July18) == 17000 && Weekday(July18) == 0
    ensures forall m :: At(July18, m) == MondayMidnight + m
    ensures Weekday(July20) == 2 && At(July20, 0) == MondayMidnight + 2 * MinutesPerDay
    ensures Weekday(Date(2017, 7, 20)) == 3
  {
  }

  /** Any Monday instant renders as its own hour and minute. */
  lemma MondayHourMinute(h: int, m: int)
    requires 0 <= h < 24 && 0 <= m < MinutesPerHour
    ensures HourMinute(Monday(h, m)) == TwoDigits(h) + ":" + TwoDigits(m)
  {
    var x := h * MinutesPerHour + m;
    assert MondayMidnight == 17000 * MinutesPerDay;
    assert MinuteOfDay(Monday(h, m)) == x;
    assert x / MinutesPerHour == h && x % MinutesPerHour == m;
  }

  /** One step of the free-slot filter, for unfolding it on concrete slot lists. */
  lemma UnbookedStep(x: int, rest: seq<int>, period: int, entries: seq<TimelineEntry>, teacher: TeacherId)
    ensures Unbooked([x] + rest, period, entries, teacher)
         == if Busy(entries, teacher, x, x + period) then Unbooked(rest, period, entries, teacher)
            else [x] + Unbooked(rest, period, entries, teacher)
  {
    assert ([x] + rest)[1..] == rest;
  }

  /** The Monday instants the cases below use, as minute counts. */
  lemma MondayInstants()
    ensures Monday(13, 0) == 24480780 && Monday(13, 20) == 24480800 && Monday(13, 30) == 24480810
    ensures Monday(13, 40) == 24480820 && Monday(14, 0) == 24480840 && Monday(14, 10) == 24480850
    ensures Monday(14, 20) == 24480860 && Monday(14, 30) == 24480870 && Monday(14, 40) == 24480880
    ensures Monday(15, 0) == 24480900
  {
  }

  /** `for_date` gives Monday's window 13:00-15:00 on the 18th and None (no failure) on Wednesday the 20th. */
  lemma WorkingHoursForDate()
    ensures ForDate(Templates, Tutor, July18) == Some(Window(Monday(13, 0), Monday(15, 0)))
    ensures ForDate(Templates, Tutor, July20) == None
  {
    MondayInstants();
    assert ForDate(Templates, Tutor, July18) == Some(Window(24480780, 24480900));
  }

  /** The bounds of Monday's window render as "13:00" and "15:00". */
  lemma WindowRendered()
    ensures HourMinute(Monday(13, 0)) == "13:00" && HourMinute(Monday(15, 0)) == "15:00"
  {
    MondayHourMinute(13, 0);
    MondayHourMinute(15, 0);
    assert TwoDigits(13) == "13" && TwoDigits(15) == "15" && TwoDigits(0) == "00";
  }

  /** The grids of 30- and 20-minute start times over Monday 13:00-15:00. */
  lemma MondayGrid()
    ensures SlotStarts(Monday(13, 0), Monday(15, 0), 30) == [Monday(13, 0), Monday(13, 30), Monday(14, 0), Monday(14, 30)]
    ensures SlotStarts(Monday(13, 0), Monday(15, 0), 20)
         == [Monday(13, 0), Monday(13, 20), Monday(13, 40), Monday(14, 0), Monday(14, 20), Monday(14, 40)]
  {
    MondayInstants();
    assert SlotStarts(24480780, 24480900, 30) == [24480780, 24480810, 24480840, 24480870];
    assert SlotStarts(24480780, 24480900, 20) == [24480780, 24480800, 24480820, 24480840, 24480860, 24480880];
  }

  /** Four 30-minute slots 13:00 ... 14:30, six 20-minute slots 13:00 ... 14:40, and None on Wednesday. */
  lemma FreeSlots()
    ensures FindFreeSlots(Templates, [], Tutor, July18)
         == Some([Monday(13, 0), Monday(13, 30), Monday(14, 0), Monday(14, 30)])
    ensures FindFreeSlots(Templates, [], Tutor, July18, 20)
         == Some([Monday(13, 0), Monday(13, 20), Monday(13, 40), Monday(14, 0), Monday(14, 20), Monday(14, 40)])
    ensures FindFreeSlots(Templates, [], Tutor, July20) == None
  {
    WorkingHoursForDate();
    MondayGrid();
    NoEntriesAllFree(SlotStarts(Monday(13, 0), Monday(15, 0), 30), 30, Tutor);
    NoEntriesAllFree(SlotStarts(Monday(13, 0), Monday(15, 0), 20), 20, Tutor);
  }

  /** Monday's working window, as minute counts. */
  lemma MondayWindow()
    ensures ForDate(Templates, Tutor, July18) == Some(Window(24480780, 24480900))
    ensures SlotStarts(24480780, 24480900, 30) == [24480780, 24480810, 24480840, 24480870]
  {
  }

  /** An entry [14:00, 14:30) removes exactly the 14:00 slot; the slots touching it stay. */
  lemma EntryRemovesItsSlot()
    ensures var e := TimelineEntry(Tutor, OrdinaryLesson, Monday(14, 0), Monday(14, 30));
            FindFreeSlots(Templates, [e], Tutor, July18) == Some([Monday(13, 0), Monday(13, 30), Monday(14, 30)])
  {
    MondayInstants();
    MondayWindow();
    var e := TimelineEntry(1, 10, 24480840, 24480870);
    assert Busy([e], 1, 24480840, 24480870) by { assert [e][0] == e; }
    assert !Busy([e], 1, 24480780, 24480810);
    assert !Busy([e], 1, 24480810, 24480840);
    assert !Busy([e], 1, 24480870, 24480900);
    assert Unbooked([24480870], 30, [e], 1) == [24480870] by { UnbookedStep(24480870, [], 30, [e], 1); }
    assert Unbooked([24480840, 24480870], 30, [e], 1) == [24480870] by {
      UnbookedStep(24480840, [24480870], 30, [e], 1);
    }
    assert Unbooked([24480810, 24480840, 24480870], 30, [e], 1) == [24480810, 24480870] by {
      UnbookedStep(24480810, [24480840, 24480870], 30, [e], 1);
    }
    assert Unbooked([24480780, 24480810, 24480840, 24480870], 30, [e], 1) == [24480780, 24480810, 24480870] by {
      UnbookedStep(24480780, [24480810, 24480840, 24480870], 30, [e], 1);
    }
    assert FindFreeSlots(Templates, [e], 1, July18) == Some([24480780, 24480810, 24480870]);
  }

  /** An entry [14:10, 14:40) straddles the 14:00 and 14:30 slots and removes both whole. */
  lemma OffsetEntryRemovesTwoSlots()
    ensures var e := TimelineEntry(Tutor, OrdinaryLesson, Monday(14, 10), Monday(14, 40));
            FindFreeSlots(Templates, [e], Tutor, July18) == Some([Monday(13, 0), Monday(13, 30)])
  {
    MondayInstants();
    MondayWindow();
    var e := TimelineEntry(1, 10, 24480850, 24480880);
    assert Busy([e], 1, 24480840, 24480870) by { assert [e][0] == e; }
    assert Busy([e], 1, 24480870, 24480900) by { assert [e][0] == e; }
    assert !Busy([e], 1, 24480780, 24480810);
    assert !Busy([e], 1, 24480810, 24480840);
    assert Unbooked([24480870], 30, [e], 1) == [] by { UnbookedStep(24480870, [], 30, [e], 1); }
    assert Unbooked([24480840, 24480870], 30, [e], 1) == [] by {
      UnbookedStep(24480840, [24480870], 30, [e], 1);
    }
    assert Unbooked([24480810, 24480840, 24480870], 30, [e], 1) == [24480810] by {
      UnbookedStep(24480810, [24480840, 24480870], 30, [e], 1);
    }
    assert Unbooked([24480780, 24480810, 24480840, 24480870], 30, [e], 1) == [24480780, 24480810] by {
      UnbookedStep(24480780, [24480810, 24480840, 24480870], 30, [e], 1);
    }
    assert FindFreeSlots(Templates, [e], 1, July18) == Some([24480780, 24480810]);
  }

  /** The tutor's own master class is the one slot of that lesson type; on the 20th there are none, not None. */
  lemma MasterClassSlots()
    ensures var mc := TimelineEntry(Tutor, MasterClass, Monday(14, 10), Monday(14, 40));
            && FindFreeSlots(Templates, [mc], Tutor, July18, lessonType := Some(MasterClass)) == Some([Monday(14, 10)])
            && FindFreeSlots(Templates, [mc], Tutor, July20, lessonType := Some(MasterClass)) == Some([])
  {
    MondayInstants();
    CalendarFacts();
    var mc := TimelineEntry(1, 11, 24480850, 24480880);
    assert LessonSlots([mc], 1, July18, 11) == [24480850];
    assert LessonSlots([mc], 1, July20, 11) == [];
  }

  /** Another tutor's master class is no slot of this tutor. */
  lemma OtherTutorsMasterClass()
    ensures var mc := TimelineEntry(OtherTutor, MasterClass, Monday(14, 10), Monday(14, 40));
            FindFreeSlots(Templates, [mc], Tutor, July18, lessonType := Some(MasterClass)) == Some([])
  {
  }

  /** The tutor is free on the Monday; nobody works on Thursday 2017-07-20. */
  lemma FindTeacherByDate()
    ensures FindFree(Templates, [], [Tutor], July18) == [Tutor]
    ensures FindFree(Templates, [], [Tutor], Date(2017, 7, 20)) == []
  {
    FreeSlots();
    CalendarFacts();
    assert ForDate(Templates, Tutor, Date(2017, 7, 20)) == None;
  }

  /** Both tutors host a master class on the Monday, so both are found; nobody on the 20th. */
  lemma TeachersByLessonType()
    ensures var first := TimelineEntry(Tutor, MasterClass, Monday(14, 10), Monday(14, 40));
            var second := TimelineEntry(OtherTutor, MasterClass, Monday(14, 10), Monday(14, 40));
            && FindFree(Templates, [first, second], [Tutor, OtherTutor], July18, Some(MasterClass)) == [Tutor, OtherTutor]
            && FindFree(Templates, [first, second], [Tutor, OtherTutor], July20, Some(MasterClass)) == []
  {
    MondayInstants();
    CalendarFacts();
    var first := TimelineEntry(1, 11, 24480850, 24480880);
    var second := TimelineEntry(2, 11, 24480850, 24480880);
    assert LessonSlots([first, second], 1, July18, 11) == [24480850];
    assert LessonSlots([first, second], 2, July18, 11) == [24480850];
    assert LessonSlots([first, second], 1, July20, 11) == [];
    assert LessonSlots([first, second], 2, July20, 11) == [];
  }

  /** The 13:00 and 13:30 slots render as their own hour and minute. */
  lemma OneOClockLabels()
    ensures HourMinute(Monday(13, 0)) == "13:00" && HourMinute(Monday(13, 30)) == "13:30"
  {
    assert HourMinute(Monday(13, 0)) == "13:00" by {
      MondayHourMinute(13, 0);
      assert TwoDigits(13) == "13" && TwoDigits(0) == "00";
    }
    assert HourMinute(Monday(13, 30)) == "13:30" by {
      MondayHourMinute(13, 30);
      assert TwoDigits(13) == "13" && TwoDigits(30) == "30";
    }
  }

  /** The 14:00 and 14:30 slots render as their own hour and minute. */
  lemma TwoOClockLabels()
    ensures HourMinute(Monday(14, 0)) == "14:00" && HourMinute(Monday(14, 30)) == "14:30"
  {
    assert HourMinute(Monday(14, 0)) == "14:00" by {
      MondayHourMinute(14, 0);
      assert TwoDigits(14) == "14" && TwoDigits(0) == "00";
    }
    assert HourMinute(Monday(14, 30)) == "14:30" by {
      MondayHourMinute(14, 30);
      assert TwoDigits(14) == "14" && TwoDigits(30) == "30";
    }
  }

  /** `as_dict` renders the four Monday slots as "13:00" ... "14:30". */
  lemma SlotsAsDict()
    ensures AsDict([Monday(13, 0), Monday(13, 30), Monday(14, 0), Monday(14, 30)]) == ["13:00", "13:30", "14:00", "14:30"]
  {
    OneOClockLabels();
    TwoOClockLabels();
  }

}
