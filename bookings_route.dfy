/**
 * The /api/agendamentos route: GET lists every booking ordered by date/time and
 * POST validates the two required fields and inserts one row. The Prisma table
 * is an in-memory sequence of rows owned by a BookingTable object; a failing
 * database call is the `storeFails` parameter, and `parseDate` stands for
 * JavaScript's Date string parser.
 */
module BookingsRoute {
  import opened Wrappers
  import opened Calendar
  import opened Json
  import Ordering

  /** A row of the Agendamento table; `value` is the valor column in cents, None when it is null. */
  datatype Row = Row(id: int, clientName: string, scheduledAt: Instant, value: Option<int>)

  function ScheduledAt(r: Row): int {
    r.scheduledAt
  }

  /** What a handler answers: the JSON body together with the HTTP status it implies. */
  datatype Response =
    | Listed(rows: seq<Row>)
    | Created(row: Row)
    | Failed(status: int, message: string)
  {
    function Status(): int {
      match this
      case Listed(_) => 200
      case Created(_) => 201
      case Failed(status, _) => status
    }
  }

  const ListError: string := "Erro ao buscar agendamentos."
  const RequiredFields: string := "Nome do cliente e data/hora são obrigatórios."
  const CreateError: string := "Erro ao criar agendamento."

  /** Largest magnitude of a JavaScript Date's time value. */
  const MaxTime: int := 8_640_000_000_000_000

  /**
   * `new Date(v)` for the data_hora value of the body; None is an Invalid Date.
   * Strings go through the Date parser, numbers are time values, `true` is 1 ms,
   * and `null` converts to the number 0.
   */
  function DateFrom(v: JsonValue, parseDate: string -> Option<Instant>): (date: Option<Instant>)
    ensures v.JString? ==> date == parseDate(v.s)
    ensures v.JNumber? ==> (date.Some? <==> -MaxTime <= v.n <= MaxTime) && (date.Some? ==> date.value == v.n)
    ensures v.JBool? ==> date.Some? && (date.value == 1 <==> v.b) && (date.value == 0 <==> !v.b)
    ensures v.JNull? ==> date == Some(0)
    ensures v.JArray? || v.JObject? ==> date.None?
  {
    match v
    case JString(s) => parseDate(s)
    case JNumber(n) => if -MaxTime <= n <= MaxTime then Some(n) else None
    case JBool(b) => Some(if b then 1 else 0)
    case JNull => Some(0)
    case _ => None
  }

  /** What POST decides from the request body alone, before it writes the table. */
  datatype Decision =
    | Accept(clientName: string, scheduledAt: Instant)
    | Reject(status: int, message: string)

  /**
   * POST's path through its body: an unreadable body (None) or a null one throws
   * and is answered 500; a missing or falsy nome_cliente or data_hora is answered
   * 400; a name that is not a string or a date/time that is not a valid Date makes
   * the insert throw, answered 500. No other field is read, and no other booking
   * is looked at.
   */
  function Decide(body: Option<JsonValue>, parseDate: string -> Option<Instant>): (d: Decision)
    ensures d.Reject? ==> d == Reject(400, RequiredFields) || d == Reject(500, CreateError)
    ensures d == Reject(400, RequiredFields) <==>
              body.Some? && body.value != JNull &&
              (Falsy(Property(body.value, "nome_cliente")) || Falsy(Property(body.value, "data_hora")))
    ensures d.Accept? <==>
              body.Some? && body.value != JNull &&
              !Falsy(Property(body.value, "nome_cliente")) && !Falsy(Property(body.value, "data_hora")) &&
              Property(body.value, "nome_cliente").value.JString? &&
              DateFrom(Property(body.value, "data_hora").value, parseDate).Some?
    ensures d.Accept? ==>
              Property(body.value, "nome_cliente") == Some(JString(d.clientName)) && d.clientName != "" &&
              DateFrom(Property(body.value, "data_hora").value, parseDate) == Some(d.scheduledAt)
  {
    if body.None? || body.value == JNull then Reject(500, CreateError)
    else
      var name := Property(body.value, "nome_cliente");
      var when := Property(body.value, "data_hora");
      if Falsy(name) || Falsy(when) then Reject(400, RequiredFields)
      else if !name.value.JString? then Reject(500, CreateError)
      else match DateFrom(when.value, parseDate)
        case None => Reject(500, CreateError)
        case Some(t) => Accept(name.value.s, t)
  }

  /** POST reads nome_cliente and data_hora only: valor, or any other field, does not change the outcome. */
  lemma OnlyNameAndDateRead(fields: map<string, JsonValue>, key: string, v: JsonValue, parseDate: string -> Option<Instant>)
    requires key != "nome_cliente" && key != "data_hora"
    ensures Decide(Some(JObject(fields[key := v])), parseDate) == Decide(Some(JObject(fields)), parseDate)
  {
    assert Property(JObject(fields[key := v]), "nome_cliente") == Property(JObject(fields), "nome_cliente");
    assert Property(JObject(fields[key := v]), "data_hora") == Property(JObject(fields), "data_hora");
  }

  /** The Agendamento table, with the identity counter the database keeps for it. */
  class BookingTable {
    var rows: seq<Row>
    var nextId: int
    /** What the valor column holds for a row inserted without one. */
    const valueDefault: Option<int>

    ghost predicate Valid()
      reads this
    {
      && (forall i :: 0 <= i < |rows| ==> rows[i].id < nextId)
      && (forall i, j :: 0 <= i < j < |rows| ==> rows[i].id != rows[j].id)
    }

    constructor (valueDefault: Option<int>)
      ensures Valid() && rows == [] && this.valueDefault == valueDefault
    {
      rows := [];
      nextId := 1;
      this.valueDefault := valueDefault;
    }

    /** GET: every row, ordered by data_hora ascending; the table is not changed. */
    method List(storeFails: bool) returns (response: Response)
      ensures storeFails ==> response == Failed(500, ListError)
      ensures !storeFails ==> response.Listed? && response.Status() == 200
      ensures response.Listed? ==> Ordering.SortedBy(response.rows, ScheduledAt)
      ensures response.Listed? ==> multiset(response.rows) == multiset(rows)
    {
      if storeFails {
        response := Failed(500, ListError);
      } else {
        response := Listed(Ordering.SortBy(rows, ScheduledAt));
      }
    }

    /** POST: decide on the body, then insert one row with a fresh id, answering 201 with it. */
    method Create(body: Option<JsonValue>, parseDate: string -> Option<Instant>, storeFails: bool) returns (response: Response)
      requires Valid()
      modifies this
      ensures Valid()
      ensures response.Status() != 409
      ensures match Decide(body, parseDate)
        case Reject(status, message) =>
          response == Failed(status, message) && rows == old(rows) && nextId == old(nextId)
        case Accept(name, at) =>
          if storeFails then
            response == Failed(500, CreateError) && rows == old(rows) && nextId == old(nextId)
          else
            response == Created(Row(old(nextId), name, at, valueDefault)) &&
            rows == old(rows) + [response.row] && nextId > old(nextId)
      ensures response.Created? ==> forall i :: 0 <= i < |old(rows)| ==> old(rows)[i].id != response.row.id
    {
      var decision := Decide(body, parseDate);
      match decision {
        case Reject(status, message) =>
          response := Failed(status, message);
        case Accept(name, at) =>
          if storeFails {
            response := Failed(500, CreateError);
          } else {
            var row := Row(nextId, name, at, valueDefault);
            rows := rows + [row];
            nextId := nextId + 1;
            response := Created(row);
          }
      }
    }
  }

  /**
   * POST performs no slot-conflict check: the same valid body posted twice to a
   * table is accepted twice, and the table then holds two bookings at one instant.
   */
  method DoubleBookingAccepted(body: Option<JsonValue>, parseDate: string -> Option<Instant>, valueDefault: Option<int>)
    returns (first: Response, second: Response, booked: seq<Row>)
    requires Decide(body, parseDate).Accept?
    ensures first.Status() == 201 && second.Status() == 201
    ensures |booked| == 2 && booked[0].scheduledAt == booked[1].scheduledAt && booked[0].id != booked[1].id
  {
    var table := new BookingTable(valueDefault);
    first := table.Create(body, parseDate, false);
    second := table.Create(body, parseDate, false);
    booked := table.rows;
  }
}
