/**
 * The day view (ListaAgendamentosDia.tsx): the bookings of the selected day in
 * start order, their total, and the previous/next/today navigation.
 */
module DayList {
  import opened Wrappers
  import opened Calendar
  import opened HomePage
  import Ordering
  import BookingsRoute

  /** `ag.start && isSameDay(ag.start, dataSelecionada)` */
  predicate Listed(e: Event, selected: Instant) {
    e.start.Some? && SameDay(e.start.value, selected)
  }

  /** `a.start!.getTime()`, the sort key of a listed booking. */
  function StartKey(e: Event): int {
    if e.start.Some? then e.start.value else 0
  }

  /**
   * agendamentosDoDia: the events of the selected day, sorted by start. The sort
   * runs on the fresh array filter returns, so the events given are not touched.
   */
  function DayBookings(events: seq<Event>, selected: Instant): (list: seq<Event>)
    ensures forall e :: e in list <==> e in events && Listed(e, selected)
    ensures forall i :: 0 <= i < |list| ==> Listed(list[i], selected)
    ensures forall i, j :: 0 <= i < j < |list| ==>
              list[i].start.Some? && list[j].start.Some? && list[i].start.value <= list[j].start.value
    ensures multiset(list) == multiset(Ordering.Filter(events, e => Listed(e, selected)))
  {
    var chosen := Ordering.Filter(events, e => Listed(e, selected));
    var list := Ordering.SortBy(chosen, StartKey);
    ListedMembers(events, chosen, list, selected);
    list
  }

  lemma ListedMembers(events: seq<Event>, chosen: seq<Event>, list: seq<Event>, selected: Instant)
    requires forall x :: multiset(chosen)[x] == if Listed(x, selected) then multiset(events)[x] else 0
    requires multiset(list) == multiset(chosen) && Ordering.SortedBy(list, StartKey)
    ensures forall e :: e in list <==> e in events && Listed(e, selected)
    ensures forall i :: 0 <= i < |list| ==> Listed(list[i], selected)
    ensures forall i, j :: 0 <= i < j < |list| ==>
              list[i].start.Some? && list[j].start.Some? && list[i].start.value <= list[j].start.value
  {
    forall e
      ensures e in list <==> e in events && Listed(e, selected)
    {
      assert e in list <==> multiset(list)[e] > 0;
      assert e in events <==> multiset(events)[e] > 0;
    }
    forall i | 0 <= i < |list|
      ensures Listed(list[i], selected)
    {
      assert list[i] in list;
    }
  }

  /** `typeof valor === 'number' ? valor : 0` */
  function NumericValue(e: Event): int {
    e.value.GetOr(0)
  }

  /** totalDoDia: agendamentosDoDia.reduce((total, ag) => total + NumericValue(ag), 0) */
  function DayTotal(list: seq<Event>): (total: int)
    ensures list == [] ==> total == 0
    ensures (forall i :: 0 <= i < |list| ==> NumericValue(list[i]) >= 0) ==> total >= 0
  {
    if list == [] then 0 else DayTotal(list[..|list| - 1]) + NumericValue(list[|list| - 1])
  }

  /** Reference total: the numeric values of the listed events, in input order, without sorting. */
  function ListedValueSum(events: seq<Event>, selected: Instant): int {
    if events == [] then 0
    else
      var last := events[|events| - 1];
      ListedValueSum(events[..|events| - 1], selected) + (if Listed(last, selected) then NumericValue(last) else 0)
  }

  lemma {:induction false} TotalFront(e: Event, list: seq<Event>)
    ensures DayTotal([e] + list) == NumericValue(e) + DayTotal(list)
    decreases |list|
  {
    if list != [] {
      assert ([e] + list)[..|list|] == [e] + list[..|list| - 1];
      TotalFront(e, list[..|list| - 1]);
    }
  }

  lemma {:induction false} TotalInsert(e: Event, list: seq<Event>)
    requires Ordering.SortedBy(list, StartKey)
    ensures DayTotal(Ordering.Insert(e, list, StartKey)) == DayTotal(list) + NumericValue(e)
  {
    if list == [] {
      assert Ordering.Insert(e, list, StartKey) == [e];
    } else if StartKey(e) < StartKey(list[0]) {
      TotalFront(e, list);
    } else {
      assert Ordering.Insert(e, list, StartKey) == [list[0]] + Ordering.Insert(e, list[1..], StartKey);
      TotalInsert(e, list[1..]);
      TotalFront(list[0], Ordering.Insert(e, list[1..], StartKey));
      TotalFront(list[0], list[1..]);
      assert [list[0]] + list[1..] == list;
    }
  }

  /** Sorting does not change the total. */
  lemma {:induction false} TotalSorted(list: seq<Event>)
    ensures DayTotal(Ordering.SortBy(list, StartKey)) == DayTotal(list)
  {
    if list != [] {
      var init := list[..|list| - 1];
      TotalSorted(init);
      TotalInsert(list[|list| - 1], Ordering.SortBy(init, StartKey));
    }
  }

  lemma {:induction false} TotalFiltered(events: seq<Event>, selected: Instant)
    ensures DayTotal(Ordering.Filter(events, e => Listed(e, selected))) == ListedValueSum(events, selected)
  {
    if events != [] {
      TotalFiltered(events[..|events| - 1], selected);
    }
  }

  /** The day's total is the sum of the numeric values of exactly the listed events, non-numbers counting 0. */
  lemma DayTotalIsListedSum(events: seq<Event>, selected: Instant)
    ensures DayTotal(DayBookings(events, selected)) == ListedValueSum(events, selected)
  {
    TotalSorted(Ordering.Filter(events, e => Listed(e, selected)));
    TotalFiltered(events, selected);
  }

  /**
   * Events built by the Home page's mapping carry no valor, so the day total
   * shown for them is 0 whatever the stored values are.
   */
  lemma {:induction false} LoadedTotalIsZero(data: seq<BookingsRoute.Row>, selected: Instant)
    ensures DayTotal(DayBookings(ToEvents(data), selected)) == 0
  {
    DayTotalIsListedSum(ToEvents(data), selected);
    NoValueSum(ToEvents(data), selected);
  }

  lemma {:induction false} NoValueSum(events: seq<Event>, selected: Instant)
    requires forall i :: 0 <= i < |events| ==> events[i].value.None?
    ensures ListedValueSum(events, selected) == 0
  {
    if events != [] {
      NoValueSum(events[..|events| - 1], selected);
    }
  }

  /** handlePreviousDay */
  function PreviousDay(selected: Instant): (day: Instant)
    ensures DayOf(day) == DayOf(selected) - 1 && TimeOfDay(day) == TimeOfDay(selected)
  {
    SubDays(selected, 1)
  }

  /** handleNextDay */
  function NextDay(selected: Instant): (day: Instant)
    ensures DayOf(day) == DayOf(selected) + 1 && TimeOfDay(day) == TimeOfDay(selected)
  {
    AddDays(selected, 1)
  }

  /** handleToday: the clock's current instant, passed in. */
  function Today(now: Instant): (day: Instant)
    ensures day == now
  {
    now
  }

  /** Previous and next undo each other. */
  lemma Navigation(selected: Instant)
    ensures NextDay(PreviousDay(selected)) == selected && PreviousDay(NextDay(selected)) == selected
  {
  }
}
