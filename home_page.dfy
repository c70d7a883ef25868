/**
 * The Home page (page.tsx): the mapping of the GET /api/agendamentos records to
 * calendar events, and the state the page keeps for its booking dialog.
 */
module HomePage {
  import opened Wrappers
  import opened Calendar
  import BookingsRoute

  /**
   * AgendamentoEvent: title, start, end and resource (the booking id). `value`
   * is the `valor` property that the day list and the form read from an event,
   * None when it is not a JavaScript number; the interface declares no such
   * field and the mapping below never sets one.
   */
  datatype Event = Event(title: Option<string>, start: Option<Instant>, end: Option<Instant>, resource: int, value: Option<int>)

  /** A record of the listing as a one-hour event; the record's valor is not carried over. */
  function ToEvent(record: BookingsRoute.Row): (event: Event)
    ensures event.title == Some(record.clientName) && event.resource == record.id
    ensures event.start == Some(record.scheduledAt)
    ensures event.end.Some? && event.end.value - event.start.value == MsPerHour
    ensures event.value.None?
  {
    Event(Some(record.clientName), Some(record.scheduledAt), Some(record.scheduledAt + 60 * 60 * 1000), record.id, None)
  }

  /** eventosFormatados: one event per record, in the order of the response. */
  function ToEvents(data: seq<BookingsRoute.Row>): (events: seq<Event>)
    ensures |events| == |data|
    ensures forall i :: 0 <= i < |data| ==>
              && events[i].title == Some(data[i].clientName)
              && events[i].resource == data[i].id
              && events[i].start == Some(data[i].scheduledAt)
              && events[i].end.Some? && events[i].end.value - events[i].start.value == MsPerHour
              && events[i].value.None?
  {
    seq(|data|, i requires 0 <= i < |data| => ToEvent(data[i]))
  }

  const NewTitle: string := "Novo Agendamento"
  const EditTitle: string := "Editar Agendamento"

  /** The Home component's state. */
  class Home {
    var modalOpen: bool
    var selectedDate: Instant
    var events: seq<Event>
    var loading: bool
    var editTarget: Option<Event>
    /** How many times buscarTodosAgendamentos has been started. */
    var fetchesStarted: nat

    /** No edit target outlives the dialog: every path that closes it clears the target. */
    ghost predicate Valid()
      reads this
    {
      !modalOpen ==> editTarget.None?
    }

    /** First render at `now`; the mount effect starts the first fetch. */
    constructor (now: Instant)
      ensures Valid()
      ensures !modalOpen && selectedDate == now && events == [] && loading && editTarget.None?
      ensures fetchesStarted == 1
    {
      modalOpen := false;
      selectedDate := now;
      events := [];
      loading := true;
      editTarget := None;
      fetchesStarted := 1;
    }

    /** buscarTodosAgendamentos, up to its fetch: loading is set and a request goes out. */
    method StartFetch()
      requires Valid()
      modifies this
      ensures Valid()
      ensures loading && fetchesStarted == old(fetchesStarted) + 1
      ensures modalOpen == old(modalOpen) && selectedDate == old(selectedDate)
      ensures events == old(events) && editTarget == old(editTarget)
    {
      loading := true;
      fetchesStarted := fetchesStarted + 1;
    }

    /**
     * The rest of buscarTodosAgendamentos, when the response arrives: a listing
     * replaces the events; an error body has no `map`, the throw is caught and
     * the events stay. Loading ends either way.
     */
    method FetchCompleted(response: BookingsRoute.Response)
      requires Valid()
      modifies this
      ensures Valid()
      ensures !loading
      ensures events == if response.Listed? then ToEvents(response.rows) else old(events)
      ensures modalOpen == old(modalOpen) && selectedDate == old(selectedDate)
      ensures editTarget == old(editTarget) && fetchesStarted == old(fetchesStarted)
    {
      if response.Listed? {
        events := ToEvents(response.rows);
      }
      loading := false;
    }

    /** handleSuccess: close the dialog, forget the edit target, fetch again. */
    method HandleSuccess()
      requires Valid()
      modifies this
      ensures Valid()
      ensures !modalOpen && editTarget.None?
      ensures loading && fetchesStarted == old(fetchesStarted) + 1
      ensures selectedDate == old(selectedDate) && events == old(events)
    {
      modalOpen := false;
      editTarget := None;
      StartFetch();
    }

    /** handleOpenNewModal */
    method OpenNew()
      requires Valid()
      modifies this
      ensures Valid()
      ensures modalOpen && editTarget.None?
      ensures selectedDate == old(selectedDate) && events == old(events)
      ensures loading == old(loading) && fetchesStarted == old(fetchesStarted)
    {
      editTarget := None;
      modalOpen := true;
    }

    /** handleOpenEditModal */
    method OpenEdit(booking: Event)
      requires Valid()
      modifies this
      ensures Valid()
      ensures modalOpen && editTarget == Some(booking)
      ensures selectedDate == old(selectedDate) && events == old(events)
      ensures loading == old(loading) && fetchesStarted == old(fetchesStarted)
    {
      editTarget := Some(booking);
      modalOpen := true;
    }

    /** The dialog's onOpenChange: closing it also clears the edit target. */
    method OnOpenChange(isOpen: bool)
      requires Valid()
      modifies this
      ensures Valid()
      ensures modalOpen == isOpen
      ensures editTarget == if isOpen then old(editTarget) else None
      ensures selectedDate == old(selectedDate) && events == old(events)
      ensures loading == old(loading) && fetchesStarted == old(fetchesStarted)
    {
      if !isOpen {
        editTarget := None;
      }
      modalOpen := isOpen;
    }

    /** onDataChange = setDataSelecionada */
    method ChangeDate(date: Instant)
      requires Valid()
      modifies this
      ensures Valid()
      ensures selectedDate == date
      ensures modalOpen == old(modalOpen) && editTarget == old(editTarget) && events == old(events)
      ensures loading == old(loading) && fetchesStarted == old(fetchesStarted)
    {
      selectedDate := date;
    }

    /** The dialog's title: editing exactly when an edit target is set. */
    function DialogTitle(): (title: string)
      reads this
      ensures title == EditTitle <==> editTarget.Some?
      ensures editTarget.None? ==> title == NewTitle
    {
      if editTarget.Some? then EditTitle else NewTitle
    }
  }
}
