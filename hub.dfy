/**
 * The lesson-scheduling state machine and the subscription bookkeeping of
 * hub/models.py.
 *
 * The database is a `Database` object holding the stored rows: a map from
 * key to `ClassRow`, a map from key to `SubscriptionRow`, and the set of
 * saved timeline entries. A `Class` or `Subscription` object is an
 * in-memory instance, and its `Save` writes it into the database. Keys are
 * positive, as the database hands them out, so Python's `if self.pk` is
 * `pk.Some?`.
 */
module Hub {
  import opened Wrappers
  import opened Calendar
  import opened Ids

  type CustomerId = nat
  /** A price in cents. */
  type Money = int
  /** A database key. */
  type Pk = k: nat | k >= 1 witness 1

  /** The exceptions the scheduling API and the ORM raise. */
  datatype Error = CannotBeScheduled | CannotBeUnscheduled | DoesNotExist

  datatype Outcome = Done | Failed(error: Error)

  /** `Class.BUY_SOURCES`: 0 is a single purchase, 1 a lesson that came with a subscription. */
  datatype BuySource = Single | FromSubscription

  /**
   * A teacher's timeline entry. Its own logic lives outside this model, so
   * whether it has a free seat and whether it fits the teacher's working
   * hours are given, fixed facts about it. The slot finder reads entries as
   * stored values instead (`Teachers.TimelineEntry`, with an end time); the
   * two are kept apart because here the object's identity matters.
   */
  class Entry {
    const teacher: TeacherId
    const lessonType: LessonType
    const lessonId: nat
    const start: int
    const allowOverlap: bool
    const allowBesidesWorkingHours: bool
    const isFree: bool
    const fitsWorkingHours: bool

    constructor (teacher: TeacherId, lessonType: LessonType, lessonId: nat, start: int,
                 allowOverlap: bool, allowBesidesWorkingHours: bool, isFree: bool, fitsWorkingHours: bool)
      ensures this.teacher == teacher && this.lessonType == lessonType && this.lessonId == lessonId
      ensures this.start == start && this.allowOverlap == allowOverlap
      ensures this.allowBesidesWorkingHours == allowBesidesWorkingHours
      ensures this.isFree == isFree && this.fitsWorkingHours == fitsWorkingHours
    {
      this.teacher := teacher;
      this.lessonType := lessonType;
      this.lessonId := lessonId;
      this.start := start;
      this.allowOverlap := allowOverlap;
      this.allowBesidesWorkingHours := allowBesidesWorkingHours;
      this.isFree := isFree;
      this.fitsWorkingHours := fitsWorkingHours;
    }
  }

  /** A stored `Class` row. */
  datatype ClassRow = ClassRow(customer: CustomerId, lessonType: LessonType, lessonId: nat, buyPrice: Money,
                               buySource: BuySource, active: bool, isScheduled: bool,
                               entry: Option<Entry>, subscription: Option<Pk>)

  /** The lessons of one type that a subscription product includes. */
  datatype LessonGroup = LessonGroup(lessonType: LessonType, lessons: seq<nat>)

  /** A subscription product: its lesson groups in the order of its `LESSONS`. */
  datatype Product = Product(groups: seq<LessonGroup>)

  /** A stored `Subscription` row. */
  datatype SubscriptionRow = SubscriptionRow(customer: CustomerId, product: Product, buyPrice: Money, active: bool)

  /** One lesson a subscription provides. */
  datatype Unit = Unit(lessonType: LessonType, lessonId: nat)

  /** The stored tables. */
  class Database {
    var classes: map<Pk, ClassRow>
    var nextClassPk: Pk
    var subscriptions: map<Pk, SubscriptionRow>
    var nextSubscriptionPk: Pk
    var entries: set<Entry>

    /** Keys come from counters above every key in use, and a stored class only refers to a saved entry. */
    ghost predicate Valid()
      reads this
    {
      && (forall k :: k in classes ==> k < nextClassPk)
      && (forall k :: k in subscriptions ==> k < nextSubscriptionPk)
      && (forall k :: k in classes && classes[k].entry.Some? ==> classes[k].entry.value in entries)
    }

    constructor ()
      ensures Valid()
      ensures classes == map[] && subscriptions == map[] && entries == {}
    {
      classes := map[];
      nextClassPk := 1;
      subscriptions := map[];
      nextSubscriptionPk := 1;
      entries := {};
    }

    /** An entry's `save`, as far as this model sees it: afterwards the entry is stored. */
    method SaveEntry(e: Entry)
      requires Valid()
      modifies this
      ensures Valid()
      ensures entries == old(entries) + {e}
      ensures classes == old(classes) && nextClassPk == old(nextClassPk)
      ensures subscriptions == old(subscriptions) && nextSubscriptionPk == old(nextSubscriptionPk)
    {
      entries := entries + {e};
    }

    /** Inserts a class row under a fresh key. */
    method InsertClass(row: ClassRow) returns (k: Pk)
      requires Valid()
      requires row.entry.Some? ==> row.entry.value in entries
      modifies this
      ensures Valid()
      ensures k == old(nextClassPk) && k !in old(classes)
      ensures classes == old(classes)[k := row] && nextClassPk == k + 1
      ensures entries == old(entries)
      ensures subscriptions == old(subscriptions) && nextSubscriptionPk == old(nextSubscriptionPk)
    {
      k := nextClassPk;
      classes := classes[k := row];
      nextClassPk := nextClassPk + 1;
    }

    /** Writes a class row under a key the instance already has. */
    method UpdateClass(k: Pk, row: ClassRow)
      requires Valid()
      requires row.entry.Some? ==> row.entry.value in entries
      modifies this
      ensures Valid()
      ensures classes == old(classes)[k := row]
      ensures nextClassPk == if k < old(nextClassPk) then old(nextClassPk) else k + 1
      ensures entries == old(entries)
      ensures subscriptions == old(subscriptions) && nextSubscriptionPk == old(nextSubscriptionPk)
    {
      classes := classes[k := row];
      if k >= nextClassPk {
        nextClassPk := k + 1;
      }
    }

    /** Inserts a subscription row under a fresh key. */
    method InsertSubscription(row: SubscriptionRow) returns (k: Pk)
      requires Valid()
      modifies this
      ensures Valid()
      ensures k == old(nextSubscriptionPk) && k !in old(subscriptions)
      ensures subscriptions == old(subscriptions)[k := row] && nextSubscriptionPk == k + 1
      ensures classes == old(classes) && nextClassPk == old(nextClassPk) && entries == old(entries)
    {
      k := nextSubscriptionPk;
      subscriptions := subscriptions[k := row];
      nextSubscriptionPk := nextSubscriptionPk + 1;
    }

    /** Writes a subscription row under a key the instance already has. */
    method UpdateSubscription(k: Pk, row: SubscriptionRow)
      requires Valid()
      modifies this
      ensures Valid()
      ensures subscriptions == old(subscriptions)[k := row]
      ensures nextSubscriptionPk == if k < old(nextSubscriptionPk) then old(nextSubscriptionPk) else k + 1
      ensures classes == old(classes) && nextClassPk == old(nextClassPk) && entries == old(entries)
    {
      subscriptions := subscriptions[k := row];
      if k >= nextSubscriptionPk {
        nextSubscriptionPk := k + 1;
      }
    }
  }

  /** The row as `Class.save` writes it: `is_scheduled` recomputed from the entry. */
  function Refreshed(row: ClassRow): ClassRow
  {
    row.(isScheduled := row.entry.Some?)
  }

  /** The keys of the class rows linked to subscription `sub`. */
  function Linked(classes: map<Pk, ClassRow>, sub: Pk): set<Pk>
  {
    set k | k in classes && classes[k].subscription == Some(sub)
  }

  /** The class table after loading, setting `active` on and re-saving the rows under `keys`. */
  function CascadeOn(classes: map<Pk, ClassRow>, keys: set<Pk>, active: bool): (r: map<Pk, ClassRow>)
    ensures r.Keys == classes.Keys
    ensures forall k :: k in classes && k !in keys ==> r[k] == classes[k]
    ensures forall k :: k in classes && k in keys ==>
              r[k] == classes[k].(active := active, isScheduled := classes[k].entry.Some?)
  {
    map k | k in classes :: if k in keys then Refreshed(classes[k].(active := active)) else classes[k]
  }

  /**
   * `__update_classes` when the stored `active` differs: every class of
   * subscription `sub` takes the new flag and is saved again; no other row
   * changes.
   */
  function Cascade(classes: map<Pk, ClassRow>, sub: Pk, active: bool): (r: map<Pk, ClassRow>)
    ensures r.Keys == classes.Keys
    ensures forall k :: k in classes && classes[k].subscription != Some(sub) ==> r[k] == classes[k]
    ensures forall k :: k in classes && classes[k].subscription == Some(sub) ==>
              r[k] == classes[k].(active := active, isScheduled := classes[k].entry.Some?)
  {
    CascadeOn(classes, Linked(classes, sub), active)
  }

  /** `lessons` of type `t` as units, in order. */
  function LessonUnits(t: LessonType, lessons: seq<nat>): (r: seq<Unit>)
    ensures |r| == |lessons|
    ensures forall i :: 0 <= i < |r| ==> r[i] == Unit(t, lessons[i])
  {
    if lessons == [] then []
    else LessonUnits(t, lessons[..|lessons| - 1]) + [Unit(t, lessons[|lessons| - 1])]
  }

  /** The lessons a product provides, in the order the nested loops of `__add_lessons_to_user` meet them. */
  function Units(groups: seq<LessonGroup>): seq<Unit>
  {
    if groups == [] then [] else Units(groups[..|groups| - 1]) + LessonUnits(groups[|groups| - 1].lessonType, groups[|groups| - 1].lessons)
  }

  /** The number of lessons over all groups. */
  function TotalLessons(groups: seq<LessonGroup>): nat
  {
    if groups == [] then 0 else |groups[0].lessons| + TotalLessons(groups[1..])
  }

  /** The row of a class provisioned for a subscription. */
  function ProvisionedRow(u: Unit, sub: Pk, customer: CustomerId, price: Money): ClassRow
  {
    ClassRow(customer, u.lessonType, u.lessonId, price, FromSubscription, true, false, None, Some(sub))
  }

  /** The rows provisioned for `units`, under consecutive keys from `start`. */
  function ProvisionedRows(start: Pk, units: seq<Unit>, sub: Pk, customer: CustomerId, price: Money): map<Pk, ClassRow>
  {
    if units == [] then map[]
    else
      var last := |units| - 1;
      ProvisionedRows(start, units[..last], sub, customer, price)[start + last := ProvisionedRow(units[last], sub, customer, price)]
  }

  /** The provisioned rows sit under keys `start` .. `start + |units| - 1`, the i-th lesson under `start + i`. */
  lemma {:induction false} ProvisionedRowsContents(start: Pk, units: seq<Unit>, sub: Pk, customer: CustomerId, price: Money)
    ensures forall k: Pk :: k in ProvisionedRows(start, units, sub, customer, price) <==> start <= k < start + |units|
    ensures forall i :: 0 <= i < |units| ==>
              ProvisionedRows(start, units, sub, customer, price)[start + i] == ProvisionedRow(units[i], sub, customer, price)
  {
    if units != [] {
      var last := |units| - 1;
      ProvisionedRowsContents(start, units[..last], sub, customer, price);
    }
  }

  /** A purchased lesson, as an in-memory instance. */
  class Class {
    var pk: Option<Pk>
    const customer: CustomerId
    const lessonType: LessonType
    const lessonId: nat
    const buyPrice: Money
    const buySource: BuySource
    const subscription: Option<Pk>
    var active: bool
    var isScheduled: bool
    var timelineEntry: Entry?

    /** A new, unsaved class with the model's defaults: active, not scheduled, no entry. */
    constructor (customer: CustomerId, lessonType: LessonType, lessonId: nat, buyPrice: Money,
                 buySource: BuySource, subscription: Option<Pk>)
      ensures pk == None && active && !isScheduled && timelineEntry == null
      ensures this.customer == customer && this.lessonType == lessonType && this.lessonId == lessonId
      ensures this.buyPrice == buyPrice && this.buySource == buySource && this.subscription == subscription
    {
      pk := None;
      this.customer := customer;
      this.lessonType := lessonType;
      this.lessonId := lessonId;
      this.buyPrice := buyPrice;
      this.buySource := buySource;
      this.subscription := subscription;
      active := true;
      isScheduled := false;
      timelineEntry := null;
    }

    /** An instance loaded from the stored row `k`. */
    constructor Load(k: Pk, row: ClassRow)
      ensures pk == Some(k) && Row() == row
    {
      pk := Some(k);
      customer := row.customer;
      lessonType := row.lessonType;
      lessonId := row.lessonId;
      buyPrice := row.buyPrice;
      buySource := row.buySource;
      subscription := row.subscription;
      active := row.active;
      isScheduled := row.isScheduled;
      timelineEntry := if row.entry.Some? then row.entry.value else null;
    }

    /** The row this instance writes. */
    function Row(): ClassRow
      reads this
    {
      ClassRow(customer, lessonType, lessonId, buyPrice, buySource, active, isScheduled,
               if timelineEntry == null then None else Some(timelineEntry), subscription)
    }

    /** `can_be_scheduled`: the four checks, in the source's order. */
    predicate CanBeScheduled(entry: Entry)
      reads this
    {
      && !isScheduled
      && entry.isFree
      && lessonType == entry.lessonType
      && (entry.allowBesidesWorkingHours || entry.fitsWorkingHours)
    }

    /**
     * `Class.save`: an unsaved entry is saved first, `is_scheduled` is set
     * exactly when an entry is attached, the row is inserted or updated, and
     * the entry is saved once more.
     */
    method Save(db: Database)
      requires db.Valid()
      modifies this, db
      ensures db.Valid()
      ensures isScheduled == (timelineEntry != null)
      ensures timelineEntry == old(timelineEntry) && active == old(active)
      ensures pk.Some? && (old(pk).Some? ==> pk == old(pk))
      ensures old(pk).None? ==> pk.value == old(db.nextClassPk) && pk.value !in old(db.classes)
      ensures db.nextClassPk == if old(pk).None? then old(db.nextClassPk) + 1
                                else if old(pk).value < old(db.nextClassPk) then old(db.nextClassPk)
                                else old(pk).value + 1
      ensures db.classes == old(db.classes)[pk.value := Row()]
      ensures db.entries == old(db.entries) + (if timelineEntry == null then {} else {timelineEntry})
      ensures db.subscriptions == old(db.subscriptions) && db.nextSubscriptionPk == old(db.nextSubscriptionPk)
    {
      if timelineEntry != null {
        if timelineEntry !in db.entries {
          db.SaveEntry(timelineEntry);
        }
        isScheduled := true;
      } else {
        isScheduled := false;
      }
      if pk.None? {
        var k := db.InsertClass(Row());
        pk := Some(k);
      } else {
        db.UpdateClass(pk.value, Row());
      }
      if timelineEntry != null {
        db.SaveEntry(timelineEntry);
      }
    }

    /**
     * `assign_entry`: attaches the entry when `can_be_scheduled` allows it,
     * and fails with `CannotBeScheduled`, changing nothing, when it does
     * not. The flag `is_scheduled` is left as it was; only `Save` sets it.
     */
    method AssignEntry(entry: Entry) returns (status: Outcome)
      modifies this
      ensures status == if old(CanBeScheduled(entry)) then Done else Failed(CannotBeScheduled)
      ensures timelineEntry == if status == Done then entry else old(timelineEntry)
      ensures isScheduled == old(isScheduled) && active == old(active) && pk == old(pk)
    {
      if !CanBeScheduled(entry) {
        return Failed(CannotBeScheduled);
      }
      timelineEntry := entry;
      status := Done;
    }

    /**
     * `schedule`: for a lesson whose type requires a teacher's timeline
     * entry it fails with `CannotBeScheduled` and builds nothing; otherwise
     * it builds an entry for the teacher and this lesson starting at `date`
     * and hands it to `AssignEntry`. `entryRequired` is the lesson type's
     * `timeline_entry_required()`; `isFree` and `fitsWorkingHours` are what
     * the new entry reports about itself.
     */
    method Schedule(teacher: TeacherId, date: int, entryRequired: bool, isFree: bool, fitsWorkingHours: bool,
                    allowOverlap: bool := true, allowBesidesWorkingHours: bool := false)
      returns (status: Outcome, entry: Entry?)
      modifies this
      ensures entryRequired ==> status == Failed(CannotBeScheduled) && entry == null
      ensures entryRequired ==> timelineEntry == old(timelineEntry)
      ensures !entryRequired ==> entry != null && fresh(entry)
      ensures !entryRequired ==> entry.teacher == teacher && entry.lessonType == lessonType
                                  && entry.lessonId == lessonId && entry.start == date
                                  && entry.allowOverlap == allowOverlap
                                  && entry.allowBesidesWorkingHours == allowBesidesWorkingHours
      ensures !entryRequired ==>
                status == (if !old(isScheduled) && isFree && (allowBesidesWorkingHours || fitsWorkingHours)
                           then Done else Failed(CannotBeScheduled))
      ensures !entryRequired ==> timelineEntry == if status == Done then entry else old(timelineEntry)
      ensures isScheduled == old(isScheduled) && active == old(active) && pk == old(pk)
    {
      if entryRequired {
        return Failed(CannotBeScheduled), null;
      }
      entry := new Entry(teacher, lessonType, lessonId, date, allowOverlap, allowBesidesWorkingHours,
                         isFree, fitsWorkingHours);
      status := AssignEntry(entry);
    }

    /**
     * `unschedule`: fails with `CannotBeUnscheduled` when no entry is
     * attached. Otherwise the stored row stops referring to the entry (its
     * stored `is_scheduled` is not touched), the instance drops the entry,
     * and the entry is saved, not deleted. The instance's own
     * `is_scheduled` keeps its value until the next `Save`.
     */
    method Unschedule(db: Database) returns (status: Outcome)
      requires db.Valid()
      modifies this, db
      ensures db.Valid()
      ensures status == if old(timelineEntry) == null then Failed(CannotBeUnscheduled) else Done
      ensures status.Failed? ==> timelineEntry == old(timelineEntry) && unchanged(db)
      ensures status == Done ==> timelineEntry == null && db.entries == old(db.entries) + {old(timelineEntry)}
      ensures status == Done ==>
                db.classes == if pk.Some? && pk.value in old(db.classes)
                                 && old(db.classes)[pk.value].entry == Some(old(timelineEntry))
                              then old(db.classes)[pk.value := old(db.classes)[pk.value].(entry := None)]
                              else old(db.classes)
      ensures db.nextClassPk == old(db.nextClassPk)
      ensures db.subscriptions == old(db.subscriptions) && db.nextSubscriptionPk == old(db.nextSubscriptionPk)
      ensures isScheduled == old(isScheduled) && active == old(active) && pk == old(pk)
    {
      if timelineEntry == null {
        return Failed(CannotBeUnscheduled);
      }
      var entry := timelineEntry;
      if pk.Some? && pk.value in db.classes && db.classes[pk.value].entry == Some(entry) {
        db.UpdateClass(pk.value, db.classes[pk.value].(entry := None));
      }
      timelineEntry := null;
      db.SaveEntry(entry);
      status := Done;
    }
  }

  /** A bought subscription, as an in-memory instance. */
  class Subscription {
    var pk: Option<Pk>
    const customer: CustomerId
    const product: Product
    const buyPrice: Money
    var active: bool

    /** A new, unsaved subscription. */
    constructor (customer: CustomerId, product: Product, buyPrice: Money, active: bool)
      ensures pk == None && this.active == active
      ensures this.customer == customer && this.product == product && this.buyPrice == buyPrice
    {
      pk := None;
      this.customer := customer;
      this.product := product;
      this.buyPrice := buyPrice;
      this.active := active;
    }

    /** The row this instance writes. */
    function Row(): SubscriptionRow
      reads this
    {
      SubscriptionRow(customer, product, buyPrice, active)
    }

    /**
     * `Subscription.save`. A new subscription is inserted and then gets one
     * class per lesson of its product, under fresh keys. A saved one first
     * compares its `active` with the stored row's, cascading a change onto
     * its own classes, and is then written back; a stored row that has gone
     * missing fails with `DoesNotExist` before anything is written.
     */
    method Save(db: Database) returns (status: Outcome)
      requires db.Valid()
      modifies this, db
      ensures db.Valid()
      ensures active == old(active)
      ensures old(pk).None? ==>
                && status == Done && pk == Some(old(db.nextSubscriptionPk))
                && db.subscriptions == old(db.subscriptions)[pk.value := Row()]
                && db.classes == old(db.classes)
                                 + ProvisionedRows(old(db.nextClassPk), Units(product.groups), pk.value, customer, buyPrice)
                && db.nextClassPk == old(db.nextClassPk) + |Units(product.groups)|
      ensures old(pk).Some? && old(pk).value !in old(db.subscriptions) ==>
                status == Failed(DoesNotExist) && pk == old(pk) && unchanged(db)
      ensures old(pk).Some? && old(pk).value in old(db.subscriptions) ==>
                && status == Done && pk == old(pk)
                && db.subscriptions == old(db.subscriptions)[pk.value := Row()]
                && db.classes == (if old(db.subscriptions)[pk.value].active != active
                                  then Cascade(old(db.classes), pk.value, active) else old(db.classes))
                && db.nextClassPk == old(db.nextClassPk)
      ensures db.nextSubscriptionPk == if old(pk).None? then old(db.nextSubscriptionPk) + 1 else old(db.nextSubscriptionPk)
      ensures db.entries == old(db.entries)
    {
      var isNew := pk.None?;
      if !isNew {
        if pk.value !in db.subscriptions {
          return Failed(DoesNotExist);
        }
        var orig := db.subscriptions[pk.value];
        if orig.active != active {
          UpdateClasses(db);
        }
        db.UpdateSubscription(pk.value, Row());
      } else {
        var k := db.InsertSubscription(Row());
        pk := Some(k);
        AddLessonsToUser(db);
      }
      status := Done;
    }

    /** `__add_lessons_to_user`: one saved class per lesson of the product, in `LESSONS` order. */
    method AddLessonsToUser(db: Database)
      requires db.Valid() && pk.Some?
      modifies db
      ensures db.Valid()
      ensures db.classes == old(db.classes)
                            + ProvisionedRows(old(db.nextClassPk), Units(product.groups), pk.value, customer, buyPrice)
      ensures db.nextClassPk == old(db.nextClassPk) + |Units(product.groups)|
      ensures db.entries == old(db.entries)
      ensures db.subscriptions == old(db.subscriptions) && db.nextSubscriptionPk == old(db.nextSubscriptionPk)
    {
      var groups := product.groups;
      ghost var base := db.classes;
      ghost var start := db.nextClassPk;
      var g := 0;
      while g < |groups|
        invariant 0 <= g <= |groups|
        invariant db.Valid()
        invariant db.nextClassPk == start + |Units(groups[..g])|
        invariant db.classes == base + ProvisionedRows(start, Units(groups[..g]), pk.value, customer, buyPrice)
        invariant db.entries == old(db.entries)
        invariant db.subscriptions == old(db.subscriptions) && db.nextSubscriptionPk == old(db.nextSubscriptionPk)
      {
        AddGroup(db, groups[g], base, start, Units(groups[..g]));
        assert groups[..g + 1][..g] == groups[..g];
        g := g + 1;
      }
      assert groups[..|groups|] == groups;
    }

    /** The inner loop of `__add_lessons_to_user`: one saved class per lesson of `group`. */
    method AddGroup(db: Database, group: LessonGroup, ghost base: map<Pk, ClassRow>, ghost start: Pk, ghost made: seq<Unit>)
      requires db.Valid() && pk.Some?
      requires db.nextClassPk == start + |made|
      requires db.classes == base + ProvisionedRows(start, made, pk.value, customer, buyPrice)
      modifies db
      ensures db.Valid()
      ensures db.nextClassPk == start + |made + LessonUnits(group.lessonType, group.lessons)|
      ensures db.classes == base + ProvisionedRows(start, made + LessonUnits(group.lessonType, group.lessons), pk.value, customer, buyPrice)
      ensures db.entries == old(db.entries)
      ensures db.subscriptions == old(db.subscriptions) && db.nextSubscriptionPk == old(db.nextSubscriptionPk)
    {
      var j := 0;
      ghost var cur := made;
      while j < |group.lessons|
        invariant 0 <= j <= |group.lessons|
        invariant cur == made + LessonUnits(group.lessonType, group.lessons[..j])
        invariant db.Valid()
        invariant db.nextClassPk == start + |cur|
        invariant db.classes == base + ProvisionedRows(start, cur, pk.value, customer, buyPrice)
        invariant db.entries == old(db.entries)
        invariant db.subscriptions == old(db.subscriptions) && db.nextSubscriptionPk == old(db.nextSubscriptionPk)
      {
        var u := Unit(group.lessonType, group.lessons[j]);
        ProvisionClass(db, u);
        ProvisionedRowsExtend(base, start, cur, u, pk.value, customer, buyPrice);
        assert group.lessons[..j + 1][..j] == group.lessons[..j];
        cur := cur + [u];
        j := j + 1;
      }
      assert group.lessons[..|group.lessons|] == group.lessons;
    }

    /** One class of `__add_lessons_to_user`: created for lesson `u` of this subscription and saved. */
    method ProvisionClass(db: Database, u: Unit)
      requires db.Valid() && pk.Some?
      modifies db
      ensures db.Valid()
      ensures db.classes == old(db.classes)[old(db.nextClassPk) := ProvisionedRow(u, pk.value, customer, buyPrice)]
      ensures db.nextClassPk == old(db.nextClassPk) + 1
      ensures db.entries == old(db.entries)
      ensures db.subscriptions == old(db.subscriptions) && db.nextSubscriptionPk == old(db.nextSubscriptionPk)
    {
      var c := new Class(customer, u.lessonType, u.lessonId, buyPrice, FromSubscription, pk);
      c.Save(db);
    }

    /** `__update_classes` once the flags differ: every linked class is loaded, takes the new `active` and is saved. */
    method UpdateClasses(db: Database)
      requires db.Valid() && pk.Some?
      modifies db
      ensures db.Valid()
      ensures db.classes == Cascade(old(db.classes), pk.value, active)
      ensures db.nextClassPk == old(db.nextClassPk) && db.entries == old(db.entries)
      ensures db.subscriptions == old(db.subscriptions) && db.nextSubscriptionPk == old(db.nextSubscriptionPk)
    {
      ghost var base := db.classes;
      ghost var linked := Linked(base, pk.value);
      var todo := Linked(db.classes, pk.value);
      while todo != {}
        invariant todo <= linked
        invariant db.Valid()
        invariant db.classes == CascadeOn(base, linked - todo, active)
        invariant db.nextClassPk == old(db.nextClassPk) && db.entries == old(db.entries)
        invariant db.subscriptions == old(db.subscriptions) && db.nextSubscriptionPk == old(db.nextSubscriptionPk)
        decreases todo
      {
        ghost var _ := Element(todo);
        var k :| k in todo;
        assert db.classes[k] == base[k];
        SetClassActive(db, k);
        CascadeOnExtend(base, linked - todo, k, active);
        assert linked - (todo - {k}) == (linked - todo) + {k};
        todo := todo - {k};
      }
    }

    /** One class of `__update_classes`: loaded, given this subscription's `active`, and saved. */
    method SetClassActive(db: Database, k: Pk)
      requires db.Valid() && k in db.classes
      modifies db
      ensures db.Valid()
      ensures db.classes == old(db.classes)[k := Refreshed(old(db.classes)[k].(active := active))]
      ensures db.nextClassPk == old(db.nextClassPk) && db.entries == old(db.entries)
      ensures db.subscriptions == old(db.subscriptions) && db.nextSubscriptionPk == old(db.nextSubscriptionPk)
    {
      var c := new Class.Load(k, db.classes[k]);
      assert c.timelineEntry != null ==> c.timelineEntry in db.entries;
      c.active := active;
      c.Save(db);
    }
  }

  /** One more provisioned row is one more map entry. */
  lemma ProvisionedRowsExtend(base: map<Pk, ClassRow>, start: Pk, made: seq<Unit>, u: Unit,
                              sub: Pk, customer: CustomerId, price: Money)
    ensures base + ProvisionedRows(start, made + [u], sub, customer, price)
         == (base + ProvisionedRows(start, made, sub, customer, price))[start + |made| := ProvisionedRow(u, sub, customer, price)]
  {
    assert (made + [u])[..|made|] == made;
  }

  /** Saving one more row of the cascade extends the set of rows it has reached. */
  lemma CascadeOnExtend(classes: map<Pk, ClassRow>, done: set<Pk>, k: Pk, active: bool)
    requires k in classes
    ensures CascadeOn(classes, done + {k}, active)
         == CascadeOn(classes, done, active)[k := Refreshed(classes[k].(active := active))]
  {
  }

  /** A product provides as many classes as it lists lessons. */
  lemma {:induction false} UnitsCount(groups: seq<LessonGroup>)
    ensures |Units(groups)| == TotalLessons(groups)
  {
    if groups != [] {
      var last := |groups| - 1;
      UnitsCount(groups[..last]);
      TotalLessonsSnoc(groups[..last], groups[last]);
      assert groups[..last] + [groups[last]] == groups;
    }
  }

  /** Counting the lessons group by group from the end gives the same total. */
  lemma {:induction false} TotalLessonsSnoc(groups: seq<LessonGroup>, g: LessonGroup)
    ensures TotalLessons(groups + [g]) == TotalLessons(groups) + |g.lessons|
  {
    if groups != [] {
      TotalLessonsSnoc(groups[1..], g);
      assert (groups + [g])[1..] == groups[1..] + [g];
    }
  }

  /** A subscription provides lesson `u` exactly when some group of its product lists it. */
  lemma {:induction false} UnitsProvided(groups: seq<LessonGroup>, u: Unit)
    ensures u in Units(groups) <==>
            exists i :: 0 <= i < |groups| && groups[i].lessonType == u.lessonType && u.lessonId in groups[i].lessons
  {
    if groups != [] {
      var last := |groups| - 1;
      UnitsProvided(groups[..last], u);
      var gu := LessonUnits(groups[last].lessonType, groups[last].lessons);
      if u in gu {
        var j :| 0 <= j < |gu| && gu[j] == u;
        assert groups[last].lessons[j] == u.lessonId;
      }
      if u.lessonId in groups[last].lessons && groups[last].lessonType == u.lessonType {
        var j :| 0 <= j < |groups[last].lessons| && groups[last].lessons[j] == u.lessonId;
        assert gu[j] == u;
      }
      if exists i :: 0 <= i < |groups| && groups[i].lessonType == u.lessonType && u.lessonId in groups[i].lessons {
        var i :| 0 <= i < |groups| && groups[i].lessonType == u.lessonType && u.lessonId in groups[i].lessons;
        if i < last {
          assert groups[..last][i] == groups[i];
        }
      }
    }
  }

  /** A cascade onto the same subscription with the same flag changes nothing more. */
  lemma CascadeIdempotent(classes: map<Pk, ClassRow>, sub: Pk, active: bool)
    ensures Cascade(Cascade(classes, sub, active), sub, active) == Cascade(classes, sub, active)
  {
    var once := Cascade(classes, sub, active);
    assert Linked(once, sub) == Linked(classes, sub);
  }

  /** `sort_order()` of a lesson type, with None read as 0: both are falsy. */
  function OrderOf(sortOrder: map<LessonType, int>, t: LessonType): int
  {
    if t in sortOrder then sortOrder[t] else 0
  }

  /** Whether `sort_order()` of a lesson type is truthy. */
  predicate Ordered(sortOrder: map<LessonType, int>, t: LessonType)
  {
    OrderOf(sortOrder, t) != 0
  }

  /** The distinct lesson types of the classes that have no timeline entry. */
  function Unscheduled(rows: seq<ClassRow>): set<LessonType>
  {
    set i | 0 <= i < |rows| && rows[i].entry.None? :: rows[i].lessonType
  }

  /**
   * A non-empty set has an element. Under the contradictory-assumption
   * warnings Dafny does not find the witness for `x :| x in s` on its own;
   * callers bind `ghost var _ := Element(s);` first so that it has one.
   */
  lemma Element<T>(s: set<T>) returns (x: T)
    requires s != {}
    ensures x in s
  {
    if forall y :: y !in s {
      assert false;
    }
    x :| x in s;
  }

  /** The least element of a non-empty set (the `sorted` of the source, one element at a time). */
  method Least(s: set<int>) returns (m: int)
    requires s != {}
    ensures m in s && forall x :: x in s ==> m <= x
  {
    ghost var _ := Element(s);
    m :| m in s;
    var rest := s - {m};
    while rest != {}
      invariant m in s && rest <= s
      invariant forall x :: x in s && x !in rest ==> m <= x
      decreases rest
    {
      ghost var _ := Element(rest);
      var x :| x in rest;
      if x < m {
        m := x;
      }
      rest := rest - {x};
    }
  }

  /**
   * The first loop of `bought_lesson_types`: the types are visited in
   * ascending key order and filed under their truthy `sort_order()`, a later
   * type replacing an earlier one with the same order. So each order holds
   * the largest type that has it.
   */
  method OrderTable(types: set<LessonType>, sortOrder: map<LessonType, int>) returns (table: map<int, LessonType>)
    ensures forall o :: o in table ==> table[o] in types && Ordered(sortOrder, table[o]) && OrderOf(sortOrder, table[o]) == o
    ensures forall t :: t in types && Ordered(sortOrder, t) ==>
              OrderOf(sortOrder, t) in table && t <= table[OrderOf(sortOrder, t)]
  {
    table := map[];
    var remaining: set<int> := types;
    ghost var done: set<int> := {};
    while remaining != {}
      invariant done + remaining == types && done !! remaining
      invariant forall o :: o in table ==> table[o] in done && Ordered(sortOrder, table[o])
                                            && OrderOf(sortOrder, table[o]) == o
      invariant forall t :: t in done && Ordered(sortOrder, t) ==>
                  OrderOf(sortOrder, t) in table && t <= table[OrderOf(sortOrder, t)]
      invariant forall x, y :: x in done && y in remaining ==> x < y
      decreases remaining
    {
      var t := Least(remaining);
      var order := if t in sortOrder then sortOrder[t] else 0;
      if order != 0 {
        table := table[order := t];
      }
      remaining := remaining - {t};
      done := done + {t};
    }
  }

  /**
   * The second loop of `bought_lesson_types`: the filed types by ascending
   * order. `orders` is the order each element was filed under.
   */
  method ByAscendingKey(table: map<int, LessonType>) returns (result: seq<LessonType>, ghost orders: seq<int>)
    ensures |orders| == |result|
    ensures forall i :: 0 <= i < |result| ==> orders[i] in table && result[i] == table[orders[i]]
    ensures forall i, j :: 0 <= i < j < |orders| ==> orders[i] < orders[j]
    ensures forall o :: o in table ==> o in orders
  {
    result := [];
    orders := [];
    var keys := table.Keys;
    while keys != {}
      invariant keys <= table.Keys
      invariant |orders| == |result|
      invariant forall i :: 0 <= i < |result| ==> orders[i] in table && result[i] == table[orders[i]]
      invariant forall i, j :: 0 <= i < j < |orders| ==> orders[i] < orders[j]
      invariant forall o :: o in table ==> (o in keys <==> o !in orders)
      invariant forall i, o :: 0 <= i < |orders| && o in keys ==> orders[i] < o
      decreases keys
    {
      var o := Least(keys);
      result := result + [table[o]];
      orders := orders + [o];
      keys := keys - {o};
    }
  }

  /**
   * `ClassesManager.bought_lesson_types`: the lesson types of the classes
   * without an entry whose `sort_order()` is truthy, by ascending order,
   * one per order. `sortOrder` holds `sort_order()` of each lesson type for
   * which it is not None.
   */
  method BoughtLessonTypes(rows: seq<ClassRow>, sortOrder: map<LessonType, int>) returns (result: seq<LessonType>)
    ensures forall i :: 0 <= i < |result| ==> result[i] in Unscheduled(rows) && Ordered(sortOrder, result[i])
    ensures forall i, j :: 0 <= i < j < |result| ==> OrderOf(sortOrder, result[i]) < OrderOf(sortOrder, result[j])
    ensures forall t :: t in Unscheduled(rows) && Ordered(sortOrder, t) ==>
              exists i :: 0 <= i < |result| && OrderOf(sortOrder, result[i]) == OrderOf(sortOrder, t) && t <= result[i]
  {
    var table := OrderTable(Unscheduled(rows), sortOrder);
    ghost var orders;
    result, orders := ByAscendingKey(table);
    forall i | 0 <= i < |result|
      ensures result[i] in Unscheduled(rows) && Ordered(sortOrder, result[i])
    {
      var o := orders[i];
      assert o in table && result[i] == table[o];
      assert table[o] in Unscheduled(rows) && Ordered(sortOrder, table[o]);
    }
    forall t | t in Unscheduled(rows) && Ordered(sortOrder, t)
      ensures exists i :: 0 <= i < |result| && OrderOf(sortOrder, result[i]) == OrderOf(sortOrder, t) && t <= result[i]
    {
      var o := OrderOf(sortOrder, t);
      var i :| 0 <= i < |orders| && orders[i] == o;
      assert OrderOf(sortOrder, result[i]) == o;
    }
  }

  /**
   * `ClassesManager.dates_for_planning`: from `now`, one instant per day
   * while before `now` plus seven days.
   */
  method DatesForPlanning(now: int) returns (dates: seq<int>)
    ensures |dates| == 7
    ensures forall i :: 0 <= i < |dates| ==> dates[i] == now + i * MinutesPerDay
  {
    var current := now;
    var end := now + 7 * MinutesPerDay;
    dates := [];
    while current < end
      invariant current == now + |dates| * MinutesPerDay
      invariant |dates| <= 7
      invariant forall i :: 0 <= i < |dates| ==> dates[i] == now + i * MinutesPerDay
      decreases end - current
    {
      dates := dates + [current];
      current := current + MinutesPerDay;
    }
  }
}
