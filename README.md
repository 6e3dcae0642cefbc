# Lessons, subscriptions and teachers' calendars, modelled in Dafny

This project models the core of a language school's booking backend (a
Django application) and proves properties of that model:

- **Lesson scheduling** (`hub.dfy`, module `Hub`). A bought lesson (`Class`)
  may be attached to a teacher's timeline entry. It gets one only when
  `can_be_scheduled` agrees. Detaching an entry is refused when there is
  none. Saving the class recomputes `is_scheduled` from whether an entry is
  attached.
- **Subscriptions** (`hub.dfy`). Saving a new subscription provisions one
  class per lesson of its product, in product order, under consecutive keys.
  Saving an existing subscription whose `active` flag changed copies the
  flag to every class of that subscription.
- **Queries** (`hub.dfy`). `bought_lesson_types` lists the lesson types of
  unscheduled classes, ordered by each type's sort order. `dates_for_planning`
  yields the next seven days.
- **Free slots and free teachers** (`teachers.dfy`, module `Teachers`; the
  concrete cases are in `teachers_tests.dfy`, module `TeacherCases`). A
  teacher's weekly working hours resolve to a window on a date. The free
  slots are a grid of `period`-spaced starts in that window that no timeline
  entry of the teacher overlaps. With a lesson type, the finder instead
  returns the starts of that teacher's entries of that type on the date.
  `find_free` keeps the teachers who have at least one such slot. `as_dict`
  renders slots as `HH:MM`.
- **External calendar safety** (`extevents.dfy`, module `ExtEvents`). Before
  an external calendar source replaces its stored events with a freshly
  fetched batch, it checks that the batch is not suspiciously small. Too
  small means less than half of the stored events that are not instances of
  a recurring event, or empty while events are stored. An unsafe update keeps the stored events and
  raises the `unsafe_calendar_update` signal.
- **Customers** (`crm.dfy`, module `Crm`). The nine level codes A1 … C3. The
  name and email properties, which come from the linked user account when
  there is one. The full name and `__str__`.

`calendar.dfy` (module `Calendar`) converts proleptic Gregorian dates to day
numbers and weekdays (Monday is 0, as in Python). It also renders and parses
`HH:MM`. `wrappers.dfy` holds the `Option` type, and `ids.dfy` (module `Ids`)
the teacher and lesson-type keys that `Hub` and `Teachers` share.

Time is an integer count of minutes since 1970-01-01 00:00, with no time
zone. 2016-07-18 00:00 is minute 24480000.

The database is a `Hub.Database` object. It holds the class rows and the
subscription rows as maps from key to row, plus the set of saved timeline
entries. In-memory model instances are Dafny classes whose `Save` writes
into it. Keys are positive, as a database hands them out, so Python's
`if self.pk` is `pk.Some?`.

### Behaviour of the code worth noting

- `assign_entry` (hub/models.py:212-218) only attaches the entry. It does
  not set `is_scheduled`; only `Class.save` (173-192) does that. So
  `Class.AssignEntry` and `Class.Schedule` leave `isScheduled` unchanged,
  and `Class.Save` recomputes it.
- `unschedule` (239-250) clears the foreign key in the database and in the
  instance. It does not reset `is_scheduled`, so `Class.Unschedule` leaves
  that flag as it was.
- In lesson-type mode, the tests (teachers/tests_unit.py:82-116, 128-155)
  pin the finder to the starts of the teacher's entries of that type. The
  result is an empty list, not `None`, on a day without working hours. With
  this reading, the master-class test at 82-99 gets its one slot.
- The test at teachers/tests_unit.py:18 labels `weekday=1` as Thursday. With
  Monday as 0, that is Tuesday. 2017-07-20, used at line 125, is a Thursday,
  so the test's expectation still holds (`TeacherCases.CalendarFacts`).

## Model

| member | source | states |
|---|---|---|
| Calendar.DayNumber | teachers/tests_unit.py:24 | no contract of its own; `EpochIsDayZero` anchors it at 1970-01-01 and `NextDayNumber` shows it counts every calendar day once, leap days included |
| Calendar.Weekday | teachers/tests_unit.py:17-18 | the weekday is in 0..6; with `EpochIsDayZero` (1970-01-01 is 3, a Thursday) and `WeekdayNext` (each day advances it by one modulo 7) Monday is 0 as in `weekday=0` |
| Calendar.MarchFirstStep | teachers/tests_unit.py:24 | a year counted from 1 March has 365 days, 366 when the following February is a Gregorian leap one |
| Calendar.MonthLengths | teachers/tests_unit.py:24 | the month offsets of the day count are separated by the months' lengths, February by 28 or 29 |
| Calendar.DayNumberSplit | teachers/tests_unit.py:24 | a day number is the start of its March-based year plus the month offset plus the day |
| Calendar.EpochIsDayZero | teachers/tests_unit.py:24 | 1970-01-01 is day 0 and a Thursday (weekday 3) |
| Calendar.NextDayNumber | teachers/tests_unit.py:24 | the day after a valid date is valid and has the next day number, within a month, at month ends (leap February included) and at year ends |
| Calendar.WeekdayNext | teachers/tests_unit.py:17-18 | consecutive valid dates have consecutive weekdays, Sunday (6) followed by Monday (0) |
| Calendar.MinuteOfDay | teachers/tests_unit.py:39-40 | the time of day of an instant is in 0..1439 and differs from the instant by whole days |
| Calendar.AtMinuteOfDay | teachers/tests_unit.py:24-27 | an instant built from a date and a time of day gives that time of day back |
| Calendar.TwoDigits | teachers/tests_unit.py:39-40 | a two-digit zero-padded rendering whose digits are the tens and the units |
| Calendar.HourMinute | teachers/tests_unit.py:39-40 | `%H:%M` has five characters, a colon in the middle, and parses back to the instant's time of day |
| Teachers.FirstCovering | teachers/tests_unit.py:20-30 | the index of the first template of the teacher for the date's weekday; none before it matches |
| Teachers.ForDate | teachers/tests_unit.py:20-30 | `for_date` gives None exactly when no template of the teacher covers the date's weekday |
| Teachers.Overlaps | teachers/tests_unit.py:54-80 | no contract of its own; half-open intervals share an instant. `SingleEntryDropsExactlyOverlapping` shows a slot touching an entry is kept and a partial overlap drops it |
| Teachers.Busy | teachers/tests_unit.py:54-80 | no contract of its own; some entry of that teacher overlaps the slot. `Unbooked` keeps exactly the slots that are not busy, and `OtherTeachersIgnored` shows other teachers' entries never make a slot busy |
| Teachers.SlotStarts | teachers/tests_unit.py:32-52 | the grid is start, start+period, … below the end, strictly increasing, the count rounded up, so a last slot may run past the end |
| Teachers.Unbooked | teachers/tests_unit.py:54-80 | a slot stays exactly when it is in the grid and no entry of the teacher overlaps it; order kept |
| Teachers.LessonSlots | teachers/tests_unit.py:82-116 | the starts are exactly those of the teacher's entries of that lesson type on that date |
| Teachers.FindFreeSlots | teachers/tests_unit.py:32-116 | lesson-type mode returns the entry starts; otherwise None exactly without working hours, else the unbooked grid |
| Teachers.FindFree | teachers/tests_unit.py:118-155 | a teacher is listed exactly when they have at least one free slot for the date (and lesson type) |
| Teachers.AsDict | teachers/tests_unit.py:164-169 | one label per slot, each parsing back to the slot's time of day |
| Teachers.NoEntriesAllFree | teachers/tests_unit.py:32-52 | with no timeline entries every grid slot is free |
| Teachers.OtherTeachersIgnored | teachers/tests_unit.py:101-104 | another teacher's entry never removes a slot |
| Teachers.OtherTeachersIgnoredByLessonType | teachers/tests_unit.py:101-116 | another teacher's entry never adds a lesson-type slot |
| Teachers.SingleEntryDropsExactlyOverlapping | teachers/tests_unit.py:54-80 | one entry removes a slot if and only if the two intervals overlap |
| TeacherCases.CalendarFacts | teachers/tests_unit.py:17-30 | 2016-07-18 is a Monday, 2016-07-20 a Wednesday, 2017-07-20 a Thursday |
| TeacherCases.WorkingHoursForDate | teachers/tests_unit.py:20-30 | Monday's window is 13:00-15:00; Wednesday has none |
| TeacherCases.WindowRendered | teachers/tests_unit.py:26-27 | the window renders as 13:00 and 15:00 |
| TeacherCases.MondayGrid | teachers/tests_unit.py:36-49 | the 30-minute grid has 4 starts, the 20-minute grid 6, from 13:00 to 14:30 / 14:40 |
| TeacherCases.FreeSlots | teachers/tests_unit.py:32-52 | the finder returns those grids on Monday and None on Wednesday |
| TeacherCases.EntryRemovesItsSlot | teachers/tests_unit.py:54-66 | a 14:00-14:30 entry leaves 3 slots |
| TeacherCases.OffsetEntryRemovesTwoSlots | teachers/tests_unit.py:68-80 | a 14:10-14:40 entry leaves 2 slots |
| TeacherCases.MasterClassSlots | teachers/tests_unit.py:82-99 | one master-class slot on Monday, none on Wednesday |
| TeacherCases.OtherTutorsMasterClass | teachers/tests_unit.py:101-116 | another tutor's master class gives this tutor no slot |
| TeacherCases.FindTeacherByDate | teachers/tests_unit.py:118-126 | the tutor is free on 2016-07-18 and nobody on 2017-07-20 |
| TeacherCases.TeachersByLessonType | teachers/tests_unit.py:128-155 | both hosts are found on Monday, none on Wednesday |
| TeacherCases.OneOClockLabels | teachers/tests_unit.py:39-43 | 13:00 and 13:30 render as such |
| TeacherCases.TwoOClockLabels | teachers/tests_unit.py:39-49 | 14:00 and 14:30 render as such |
| TeacherCases.SlotsAsDict | teachers/tests_unit.py:164-169 | `as_dict` of the Monday grid is 13:00, 13:30, 14:00, 14:30 |
| Hub.Entry.constructor | hub/models.py:229-235 | the entry carries the teacher, the lesson, the start and both flags given |
| Hub.Database.SaveEntry | hub/models.py:178-180 | saving an entry adds it to the saved entries and touches nothing else |
| Hub.Database.InsertClass | hub/models.py:192 | a new class row goes under the next unused key |
| Hub.Database.UpdateClass | hub/models.py:192 | an existing class row is replaced; other rows stay |
| Hub.Database.InsertSubscription | hub/models.py:65 | a new subscription row goes under the next unused key |
| Hub.Database.UpdateSubscription | hub/models.py:65 | an existing subscription row is replaced; other rows stay |
| Hub.CascadeOn | hub/models.py:95-97 | every chosen row becomes the old row with the flag and a recomputed `is_scheduled`, all other columns kept; the rest are untouched |
| Hub.Cascade | hub/models.py:88-97 | exactly the classes of the subscription take the new flag; no other row changes |
| Hub.Units | hub/models.py:75-76 | no contract of its own; the lessons of a product in nested-loop order. `UnitsCount` gives its length and `UnitsProvided` its membership |
| Hub.ProvisionedRows | hub/models.py:75-86 | no contract of its own; `ProvisionedRowsContents` gives its exact keys and rows, `ProvisionedRowsExtend` its growth by one lesson |
| Hub.LessonUnits | hub/models.py:76-83 | one unit per lesson of a group, in order, carrying the group's lesson type |
| Hub.ProvisionedRowsContents | hub/models.py:75-86 | the provisioned rows occupy exactly `start` … `start+n-1`, the i-th lesson under `start+i` with the subscription's customer and price, buy source 1, active, unscheduled |
| Hub.ProvisionedRowsExtend | hub/models.py:75-86 | provisioning one more lesson adds exactly its row under the next key |
| Hub.UnitsCount | hub/models.py:75-76 | as many classes are provisioned as the product has lessons over all groups |
| Hub.TotalLessonsSnoc | hub/models.py:75-76 | the lesson count of a product grows by a group's size when the group is appended |
| Hub.UnitsProvided | hub/models.py:75-76 | a (type, lesson) pair is provisioned exactly when some group of that type lists the lesson |
| Hub.CascadeOnExtend | hub/models.py:95-97 | cascading onto one more class changes only that class's row |
| Hub.CascadeIdempotent | hub/models.py:88-97 | repeating the cascade with the same flag changes nothing further |
| Hub.Class.constructor | hub/models.py:153-164 | a new class is unsaved, active, unscheduled and without an entry |
| Hub.Class.Load | hub/models.py:93-95 | a class loaded from a row has that key and reproduces the row |
| Hub.Class.CanBeScheduled | hub/models.py:252-268 | no contract of its own; `can_be_scheduled`'s four checks. `AssignEntry` and `Schedule` attach an entry exactly when it holds |
| Hub.Class.Save | hub/models.py:173-204 | `is_scheduled` holds exactly when an entry is attached; the row is inserted under a fresh key or updated in place; the entry is saved |
| Hub.Class.AssignEntry | hub/models.py:212-218 | the entry is attached exactly when `can_be_scheduled` holds (not scheduled, entry free, same lesson type, within or allowed besides working hours); otherwise CannotBeScheduled and nothing changes |
| Hub.Class.Schedule | hub/models.py:220-237 | a lesson that needs a timeline entry is refused; otherwise a new entry with the given teacher, start and flags is built and assigned under the same checks |
| Hub.Class.Unschedule | hub/models.py:239-250 | without an entry, CannotBeUnscheduled and nothing changes; otherwise the entry is detached in memory and from the stored row, and the entry is saved |
| Hub.Subscription.constructor | hub/models.py:47-51 | a new subscription is unsaved and carries its customer, product, price and flag |
| Hub.Subscription.Save | hub/models.py:57-68 | a new subscription is inserted and provisions one class per product lesson; an existing one cascades its flag when it changed, then is updated; a missing one raises DoesNotExist; the subscription key counter advances only on insert |
| Hub.Subscription.AddLessonsToUser | hub/models.py:70-86 | the class table grows by exactly the provisioned rows of the product's lessons, in product order |
| Hub.Subscription.AddGroup | hub/models.py:76-86 | one group's lessons are provisioned after those already made, under the next keys |
| Hub.Subscription.ProvisionClass | hub/models.py:77-86 | one class row for the lesson is inserted under the next key |
| Hub.Subscription.UpdateClasses | hub/models.py:88-97 | the class table becomes the cascade of the subscription's flag |
| Hub.Subscription.SetClassActive | hub/models.py:95-97 | one class takes the flag and is saved again |
| Hub.Unscheduled | hub/models.py:105 | no contract of its own; the distinct lesson types of classes without an entry. `BoughtLessonTypes` lists only such types, and every ordered one is represented |
| Hub.Least | hub/models.py:120 | the least element of a non-empty set of sort orders |
| Hub.OrderTable | hub/models.py:113-117 | each truthy sort order maps to a type with that order; for each, the type with the largest key wins |
| Hub.ByAscendingKey | hub/models.py:119-122 | the table's values listed by strictly ascending key, every key once |
| Hub.BoughtLessonTypes | hub/models.py:101-122 | every listed type has an unscheduled class and a truthy sort order; sort orders strictly increase; every such type's order appears, held by the largest type with that order |
| Hub.DatesForPlanning | hub/models.py:124-135 | seven instants, one day apart, starting now |
| ExtEvents.NonRecurring | extevents/tests/unit/tests_safety.py:35-50 | the count of non-recurring events is at most the total, 0 when all are instances, the total when none are |
| ExtEvents.IsSafe | extevents/tests/unit/tests_safety.py:15-73 | no contract of its own; `__is_safe` as assumed. `RecurringInstancesIgnored`, `LongerBatchStaysSafe` and the five cases below characterise it |
| ExtEvents.ExternalEventSource.constructor | extevents/tests/unit/tests_safety.py:9-13 | a source starts with its stored events, no fetched events and no signal |
| ExtEvents.ExternalEventSource.Update | extevents/tests/unit/tests_safety.py:83-91 | the fetched batch replaces the stored events when safe; otherwise they are kept and one `unsafe_calendar_update` for this source is raised |
| ExtEvents.NonRecurringAppend | extevents/tests/unit/tests_safety.py:35-50 | the count of non-recurring events adds up over concatenation |
| ExtEvents.RecurringInstancesIgnored | extevents/tests/unit/tests_safety.py:35-50 | adding recurring instances to the stored events never changes the verdict on a non-empty batch |
| ExtEvents.LongerBatchStaysSafe | extevents/tests/unit/tests_safety.py:21-33 | a batch at least as long as a safe one is safe |
| ExtEvents.SafeByDefault | extevents/tests/unit/tests_safety.py:15-19 | nothing stored and nothing fetched is safe |
| ExtEvents.TenByEightIsSafe | extevents/tests/unit/tests_safety.py:21-33 | replacing 10 events by 8 is safe |
| ExtEvents.TwelveWithTenRecurringByTwoIsSafe | extevents/tests/unit/tests_safety.py:35-50 | replacing 12 events, 10 of them recurring instances, by 2 is safe |
| ExtEvents.TenByZeroIsUnsafe | extevents/tests/unit/tests_safety.py:52-59 | replacing 10 events by none is unsafe |
| ExtEvents.TenByThreeIsUnsafe | extevents/tests/unit/tests_safety.py:61-73 | replacing 10 events by 3 is unsafe |
| Crm.Codes | crm/models.py:10 | no contract of its own; the codes, digit-major. `CodesMembership` and `LevelsInOrder` characterise it |
| Crm.CodesWithDigit | crm/models.py:10 | for one digit, the letters A, B, C each followed by it, in that order |
| Crm.Levels | crm/models.py:10 | `LEVELS` pairs each code with itself as its label, in code order |
| Crm.CodesMembership | crm/models.py:10 | a code is generated exactly when it is one letter followed by one of the digits |
| Crm.LevelCodes | crm/models.py:10-23 | the level codes are exactly the letter-digit pairs, and each fits the two-character level columns |
| Crm.LevelsInOrder | crm/models.py:10 | the codes are A1, B1, C1, A2, B2, C2, A3, B3, C3, digit-major |
| Crm.NewCustomer | crm/models.py:22-23 | both level fields default to 'A1', which is one of the choices |
| Crm.FieldName | crm/models.py:55 | the customer's own field is the property's name behind `customer_` |
| Crm.GetUserProperty | crm/models.py:44-55 | with a linked user, the user's attribute of that name; without, the customer's `customer_` field of that name |
| Crm.EmailOf | crm/models.py:32-34 | the user's email when linked, the customer's email otherwise |
| Crm.FirstNameOf | crm/models.py:36-38 | the user's first name when linked, the customer's otherwise |
| Crm.LastNameOf | crm/models.py:40-42 | the user's last name when linked, the customer's otherwise |
| Crm.FullName | crm/models.py:28-30 | the first name, one space, the last name |
| Crm.Str | crm/models.py:25-26 | a customer prints as the full name |
| Crm.SplitJoined | crm/models.py:28-30 | joining with a space and splitting at the first space round-trips when the first part has no space |
| Crm.FullNameSplits | crm/models.py:28-30 | a full name splits back into the first and last names when the first name has no space |
| Crm.LinkedUserShadowsFields | crm/models.py:44-55 | with a linked user, the customer's own name and email fields do not affect the full name or the email |

## Left out

- The ORM itself: querysets, managers, `ContentType` lookups, generic foreign keys, `buy_time`/`buy_date` timestamps and the admin. The `Database` object stands in for the tables these rows live in.
- Money is an integer amount; currencies are not modelled.
- Timeline entries: `is_free`, `is_fitting_working_hours`, `timeline_entry_required` and the entry's own `save` live in timeline/models.py and lessons/models.py, which are not part of this model. Here they are fixed facts given to the entry or passed as parameters, and saving an entry is adding it to the saved set.
- `Class.__str__` and `name_for_user` (hub/models.py:53-55, 169-171, 206-210): display strings built from lesson and product names, which live outside this model.
- The `request` passthrough at hub/models.py:84-85 only feeds the history log. The bare `ContentType` query at hub/models.py:107 has no effect. Neither is modelled.
- Hub.DatesForPlanning: `datetime.now()` is the parameter `now`, and the generator is a finished sequence.
- Hub.BoughtLessonTypes: `ContentType` iteration order is taken as ascending key, so when two types share a sort order the larger key wins. `sort_order()` returning None or 0 is read as "not ordered"; the model gives each type an integer order, 0 when it has none.
- Hub.Class.Unschedule: the ORM raising DoesNotExist on a dangling foreign key is not modelled; a stored row is only cleared when it points at this entry.
- Hub.Database.UpdateClass: updating a key at or past the counter also moves the counter past it, so later inserts never reuse the key.
- Transactions, locking and concurrent saves are not modelled; every operation runs alone.
- Teachers: teachers/models.py and timeline/models.py are not part of this model. `for_date`, `find_free_slots`, `find_free` and `as_dict` are modelled as the tests in teachers/tests_unit.py pin them; where the tests leave a case open, the line below names the choice. When several templates of a teacher share a weekday, the first in table order is used.
- Teachers.SlotStarts: the tests at teachers/tests_unit.py:36-49 only use windows that are whole multiples of the period, so they do not decide whether a slot running past the end of the working hours is kept; the model keeps it (a clipped grid, `slot + period <= end`, would give the count rounded down).
- Teachers: instants are naive, with no time zone; `HH:MM` rendering covers times of day only.
- ExtEvents: extevents/models.py, the Google Calendar fetch, parsing, and the signal's receivers are not part of this model. The body of `__is_safe` is therefore not available: `ExtEvents.IsSafe` is an assumed policy (a batch at least as long as the stored events is safe; an empty batch over stored events is unsafe; otherwise safe when twice the batch length reaches the number of stored events that are not recurring instances), chosen to agree with the five cases at extevents/tests/unit/tests_safety.py:15-73. `update` is reduced to storing the fetched batch and either replacing the stored events or raising the signal.
- Crm: `country`, `date_arrived`, the `EmailField` format and the 140-character limits are not modelled. A linked user is always truthy, as a saved Django model instance is.
