/**
 * The safety check an external calendar source applies before it replaces
 * its stored events with a freshly fetched batch, and the update step that
 * either replaces them or raises the `unsafe_calendar_update` signal.
 */
module ExtEvents {
  import opened Wrappers

  /** An imported calendar event; `parent` is the event a recurring instance belongs to. */
  datatype ExternalEvent = ExternalEvent(id: nat, parent: Option<nat>)

  /** The signal an unsafe update raises, carrying the source. */
  datatype Signal = UnsafeCalendarUpdate(source: nat)

  /** The number of events that are not instances of a recurring event. */
  function NonRecurring(events: seq<ExternalEvent>): (n: nat)
    ensures n <= |events|
    ensures (forall i :: 0 <= i < |events| ==> events[i].parent.Some?) ==> n == 0
    ensures (forall i :: 0 <= i < |events| ==> events[i].parent.None?) ==> n == |events|
  {
    if events == [] then 0
    else (if events[0].parent.None? then 1 else 0) + NonRecurring(events[1..])
  }

  /**
   * `__is_safe`: a batch at least as long as the stored one is safe; an
   * empty batch replacing stored events is not; otherwise the batch must be
   * at least half as long as the stored events that are not recurring
   * instances.
   */
  predicate IsSafe(saved: seq<ExternalEvent>, fetched: seq<ExternalEvent>)
  {
    if |fetched| >= |saved| then true
    else if |fetched| == 0 then false
    else |fetched| * 2 >= NonRecurring(saved)
  }

  /** An external calendar and the events stored for it. */
  class ExternalEventSource {
    const id: nat
    var events: seq<ExternalEvent>
    var saved: seq<ExternalEvent>
    var signals: seq<Signal>

    constructor (id: nat, saved: seq<ExternalEvent>)
      ensures this.id == id && this.saved == saved && events == [] && signals == []
    {
      this.id := id;
      this.saved := saved;
      events := [];
      signals := [];
    }

    /**
     * `update`: the fetched batch becomes the source's events; a safe batch
     * replaces the stored events, an unsafe one leaves them and raises
     * `UnsafeCalendarUpdate` for this source.
     */
    method Update(fetched: seq<ExternalEvent>)
      modifies this
      ensures events == fetched
      ensures IsSafe(old(saved), fetched) ==> saved == fetched && signals == old(signals)
      ensures !IsSafe(old(saved), fetched) ==>
                saved == old(saved) && signals == old(signals) + [UnsafeCalendarUpdate(id)]
    {
      events := fetched;
      if !IsSafe(saved, events) {
        signals := signals + [UnsafeCalendarUpdate(id)];
        return;
      }
      saved := events;
    }
  }

  /** Counting splits over concatenation. */
  lemma {:induction false} NonRecurringAppend(a: seq<ExternalEvent>, b: seq<ExternalEvent>)
    ensures NonRecurring(a + b) == NonRecurring(a) + NonRecurring(b)
  {
    if a == [] {
      assert a + b == b;
    } else {
      NonRecurringAppend(a[1..], b);
      assert (a + b)[0] == a[0] && (a + b)[1..] == a[1..] + b;
    }
  }

  /**
   * Recurring instances do not count against a non-empty batch: adding
   * them to the stored events never changes the verdict.
   */
  lemma RecurringInstancesIgnored(saved: seq<ExternalEvent>, instances: seq<ExternalEvent>, fetched: seq<ExternalEvent>)
    requires forall i :: 0 <= i < |instances| ==> instances[i].parent.Some?
    requires fetched != []
    ensures IsSafe(saved + instances, fetched) == IsSafe(saved, fetched)
  {
    NonRecurringAppend(saved, instances);
  }

  /** A longer batch is never less safe. */
  lemma LongerBatchStaysSafe(saved: seq<ExternalEvent>, fetched: seq<ExternalEvent>, more: seq<ExternalEvent>)
    requires IsSafe(saved, fetched) && |more| >= |fetched|
    ensures IsSafe(saved, more)
  {
  }

  /** `n` events that are not recurring instances. */
  function Plain(n: nat): (r: seq<ExternalEvent>)
    ensures |r| == n && NonRecurring(r) == n
  {
    seq(n, i requires 0 <= i < n => ExternalEvent(i, None))
  }

  /** `n` instances of the recurring event `parent`. */
  function Instances(parent: nat, n: nat): (r: seq<ExternalEvent>)
    ensures |r| == n && NonRecurring(r) == 0
  {
    seq(n, i requires 0 <= i < n => ExternalEvent(parent + 1 + i, Some(parent)))
  }

  /** With nothing stored and nothing fetched the update is safe. */
  lemma SafeByDefault()
    ensures IsSafe([], [])
  {
  }

  /** Replacing 10 events with 8 is safe. */
  lemma TenByEightIsSafe()
    ensures IsSafe(Plain(10), Plain(8))
  {
  }

  /** Replacing 12 events, 10 of them instances of one recurring event, with 2 is safe. */
  lemma TwelveWithTenRecurringByTwoIsSafe()
    ensures var saved := Plain(2) + Instances(1, 10);
            |saved| == 12 && IsSafe(saved, Plain(2))
  {
    NonRecurringAppend(Plain(2), Instances(1, 10));
  }

  /** Replacing 10 events with none is unsafe. */
  lemma TenByZeroIsUnsafe()
    ensures !IsSafe(Plain(10), [])
  {
  }

  /** Replacing 10 events with 3 is unsafe: 3 is less than half of 10. */
  lemma TenByThreeIsUnsafe()
    ensures !IsSafe(Plain(10), Plain(3))
  {
  }
}
