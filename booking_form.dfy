/**
 * The booking form (AgendamentoForm.tsx): the grid of half-hour slots, the form
 * schema, and the submit handler that stamps the chosen slot onto the chosen
 * date and picks POST for a new booking or PUT for an edited one.
 */
module BookingForm {
  import opened Wrappers
  import opened Calendar
  import opened Text
  import opened Json
  import HomePage
  import BookingsRoute

  // ------------------------------------------------------------ slot grid

  const SlotCount: nat := 28

  /** Slot i of horariosDisponiveis: hour i / 2 + 8 padded to two digits, then ":00" or ":30". */
  function SlotLabel(i: nat): string {
    var hora := i / 2 + 8;
    var minuto := if i % 2 == 0 then "00" else "30";
    TwoDigits(hora) + ":" + minuto
  }

  /** horariosDisponiveis = Array.from({ length: 28 }, (_, i) => SlotLabel(i)) */
  function AvailableSlots(): (slots: seq<string>)
    ensures |slots| == SlotCount
  {
    seq(SlotCount, i requires 0 <= i < SlotCount => SlotLabel(i))
  }

  /** An hour and a minute as read from an "HH:MM" label. */
  datatype ClockTime = ClockTime(hours: int, minutes: int)

  function MinuteOfDay(c: ClockTime): int {
    c.hours * 60 + c.minutes
  }

  /**
   * `const [horas, minutos] = label.split(':').map(Number)`: None when a part is
   * missing or is not a number.
   */
  function ParseClock(slot: string): (clock: Option<ClockTime>)
    ensures ':' !in slot ==> clock.None?
    ensures clock.Some? ==> clock.value.hours >= 0 && clock.value.minutes >= 0
  {
    var parts := Split(slot, ':');
    if |parts| < 2 then None
    else match (NumberOf(parts[0]), NumberOf(parts[1]))
      case (Some(h), Some(m)) => Some(ClockTime(h, m))
      case _ => None
  }

  /** "HH:MM" written with digits: the form every slot label has. */
  predicate ClockShaped(s: string) {
    |s| == 5 && s[2] == ':' && IsDigit(s[0]) && IsDigit(s[1]) && IsDigit(s[3]) && IsDigit(s[4])
  }

  /** A clock-shaped label parses to its two-digit hour and its two-digit minute. */
  lemma ClockShapedParses(s: string)
    requires ClockShaped(s)
    ensures ParseClock(s) == Some(ClockTime(DecimalValue(s[..2]), DecimalValue(s[3..])))
  {
    var a, b := s[..2], s[3..];
    assert AllDigits(a) && AllDigits(b);
    NoColonInDigits(a);
    NoColonInDigits(b);
    assert s == a + [':'] + b;
    SplitAtSeparator(a, b, ':');
  }

  /** The hour and minute the submit handler reads from a clock-shaped label. */
  function ClockOf(s: string): (c: ClockTime)
    requires ClockShaped(s)
    ensures ParseClock(s) == Some(c)
    ensures 0 <= c.hours < 100 && 0 <= c.minutes < 100
  {
    ClockShapedParses(s);
    assert DecimalValue(s[..2]) == DecimalValue(s[..1]) * 10 + DigitValue(s[1]) by { assert s[..2][..1] == s[..1]; }
    assert DecimalValue(s[3..]) == DecimalValue(s[3..4]) * 10 + DigitValue(s[4]) by { assert s[3..][..1] == s[3..4]; }
    ClockTime(DecimalValue(s[..2]), DecimalValue(s[3..]))
  }

  lemma NoColonInDigits(s: string)
    requires AllDigits(s)
    ensures ':' !in s
  {
    forall k | 0 <= k < |s| ensures s[k] != ':' {
      assert IsDigit(s[k]);
    }
  }

  /** date-fns format(t, 'HH:mm') */
  function FormatClock(t: Instant): string {
    TwoDigits(HourOf(t)) + ":" + TwoDigits(MinuteOf(t))
  }

  /** A two-digit hour and a two-digit minute joined by ':' parse back to that hour and minute. */
  lemma ClockRoundTrip(h: nat, m: nat)
    requires h < 100 && m < 100
    ensures ClockShaped(TwoDigits(h) + ":" + TwoDigits(m))
    ensures ParseClock(TwoDigits(h) + ":" + TwoDigits(m)) == Some(ClockTime(h, m))
  {
    var a, b := TwoDigits(h), TwoDigits(m);
    TwoDigitsRoundTrip(h);
    TwoDigitsRoundTrip(m);
    var s := a + ":" + b;
    assert s[..2] == a && s[3..] == b;
    ClockShapedParses(s);
  }

  /**
   * Slot i, character by character: the tens digit of the hour i / 2 + 8 (a
   * leading zero below 10 o'clock), its units digit, then ":00" for even i and
   * ":30" for odd i.
   */
  lemma SlotIsClock(i: nat)
    requires i < SlotCount
    ensures AvailableSlots()[i] == SlotLabel(i)
    ensures var s, h := SlotLabel(i), i / 2 + 8;
            |s| == 5 && s[0] == DigitChar(h / 10) && s[1] == DigitChar(h % 10) &&
            s[2] == ':' && s[3] == (if i % 2 == 0 then '0' else '3') && s[4] == '0'
  {
    var h := i / 2 + 8;
    var minute := if i % 2 == 0 then "00" else "30";
    assert SlotLabel(i) == TwoDigits(h) + ":" + minute;
    TwoDigitsChars(h);
    var s := [DigitChar(h / 10), DigitChar(h % 10)] + ":" + minute;
    assert SlotLabel(i) == s;
  }

  /** Parsing slot i gives back the hour and minute it was generated from. */
  lemma SlotRoundTrip(i: nat)
    requires i < SlotCount
    ensures ClockShaped(AvailableSlots()[i])
    ensures ParseClock(AvailableSlots()[i]) == Some(ClockTime(i / 2 + 8, if i % 2 == 0 then 0 else 30))
  {
    assert ToDecimal(0) == "0";
    assert ToDecimal(3) == "3";
    assert ToDecimal(30) == ToDecimal(3) + [DigitChar(0)] == "30";
    assert TwoDigits(0) == "00" && TwoDigits(30) == "30";
    assert AvailableSlots()[i] == TwoDigits(i / 2 + 8) + ":" + TwoDigits(if i % 2 == 0 then 0 else 30);
    ClockRoundTrip(i / 2 + 8, if i % 2 == 0 then 0 else 30);
    TwoDigitsRoundTrip(i / 2 + 8);
  }

  /** The grid runs from 08:00 to 21:30. */
  lemma SlotGridEnds()
    ensures |AvailableSlots()| == 28
    ensures AvailableSlots()[0] == "08:00" && AvailableSlots()[27] == "21:30"
  {
    assert ToDecimal(8) == "8";
    assert ToDecimal(21) == ToDecimal(2) + [DigitChar(1)] == "21";
    assert TwoDigits(8) == "08";
    assert TwoDigits(21) == "21";
  }

  /**
   * Slots are strictly increasing in minutes of the day, 30 minutes apart when
   * adjacent, and so pairwise distinct.
   */
  lemma SlotOrder(i: nat, j: nat)
    requires i < j < SlotCount
    ensures ParseClock(AvailableSlots()[i]).Some? && ParseClock(AvailableSlots()[j]).Some? &&
            var a, b := ParseClock(AvailableSlots()[i]).value, ParseClock(AvailableSlots()[j]).value;
            MinuteOfDay(a) == 480 + 30 * i && MinuteOfDay(b) == 480 + 30 * j &&
            MinuteOfDay(a) < MinuteOfDay(b) && (j == i + 1 ==> MinuteOfDay(b) - MinuteOfDay(a) == 30)
    ensures AvailableSlots()[i] != AvailableSlots()[j]
  {
    SlotRoundTrip(i);
    SlotRoundTrip(j);
    var a, b := AvailableSlots()[i], AvailableSlots()[j];
    assert ParseClock(a) != ParseClock(b);
  }

  /**
   * The instant submitted for slot i on `date`: the same calendar day at the
   * slot's hour and minute (8:00 plus 30 minutes per slot), on the minute.
   */
  lemma SlotInstant(date: Instant, i: nat)
    requires i < SlotCount
    ensures ParseClock(AvailableSlots()[i]).Some? &&
            var c := ParseClock(AvailableSlots()[i]).value;
            var t := SetHours(date, c.hours, c.minutes, 0, 0);
            SameDay(t, date) && HourOf(t) * 60 + MinuteOf(t) == 480 + 30 * i &&
            TimeOfDay(t) % MsPerMinute == 0
  {
    SlotRoundTrip(i);
  }

  /** format(start, 'HH:mm') always has the shape of a slot label. */
  lemma FormatClockShaped(start: Instant)
    ensures ClockShaped(FormatClock(start))
  {
    TwoDigitsRoundTrip(HourOf(start));
    TwoDigitsRoundTrip(MinuteOf(start));
  }

  /** In edit mode the selected slot is format(start, 'HH:mm'); it parses back to start's hour and minute. */
  lemma FormatClockRoundTrip(start: Instant)
    ensures ParseClock(FormatClock(start)) == Some(ClockTime(HourOf(start), MinuteOf(start)))
  {
    ClockRoundTrip(HourOf(start), MinuteOf(start));
  }

  /**
   * Stamping start's own hour and minute on start, seconds and milliseconds
   * zeroed, gives start truncated to the minute: editing a booking without
   * touching its slot keeps its time.
   */
  lemma ResubmitTruncatesToMinute(start: Instant)
    ensures SetHours(start, HourOf(start), MinuteOf(start), 0, 0) == start - start % MsPerMinute
  {
    var d, x := DayOf(start), TimeOfDay(start);
    var h, y := HourOf(start), x % MsPerHour;
    var m, z := MinuteOf(start), y % MsPerMinute;
    assert start == d * MsPerDay + x;
    assert x == h * MsPerHour + y;
    assert y == m * MsPerMinute + z;
    DivMinute(start, d * 1440 + h * 60 + m, z);
  }

  // --------------------------------------------------------------- schema

  /** The fields react-hook-form hands to onSubmit; the value is in cents, the date None when cleared. */
  datatype FormValues = FormValues(clientName: string, date: Option<Instant>, value: int)

  datatype Issue = NameTooShort | DateMissing | NegativeValue

  function IssueMessage(issue: Issue): string {
    match issue
    case NameTooShort => "O nome deve ter pelo menos 2 caracteres."
    case DateMissing => "A data do agendamento é obrigatória."
    case NegativeValue => "O valor deve ser R$ 0 ou mais."
  }

  /** The schema shows a different message for each rule, so a message names the rule it reports. */
  lemma IssueMessagesDistinct(a: Issue, b: Issue)
    ensures IssueMessage(a) == IssueMessage(b) <==> a == b
  {
  }

  /** formSchema: every rule the values break; the form submits only when there is none. */
  function Validate(v: FormValues): (issues: seq<Issue>)
    ensures NameTooShort in issues <==> |v.clientName| < 2
    ensures DateMissing in issues <==> v.date.None?
    ensures NegativeValue in issues <==> v.value < 0
    ensures issues == [] <==> |v.clientName| >= 2 && v.date.Some? && v.value >= 0
  {
    (if |v.clientName| < 2 then [NameTooShort] else []) +
    (if v.date.None? then [DateMissing] else []) +
    (if v.value < 0 then [NegativeValue] else [])
  }

  // ------------------------------------------------------------- requests

  datatype HttpMethod = Post | Put

  /** The fetch onSubmit sends: method, url and the JSON body's three fields. */
  datatype SaveRequest = SaveRequest(verb: HttpMethod, url: string, clientName: string, scheduledAt: Instant, value: int)

  const CollectionUrl: string := "/api/agendamentos"

  /** isEditMode ? PUT `/api/agendamentos/${resource}` : POST '/api/agendamentos' */
  function Target(initial: Option<HomePage.Event>): (target: (HttpMethod, string))
    ensures target.0 == Put <==> initial.Some?
    ensures initial.None? ==> target.1 == CollectionUrl
    ensures initial.Some? ==> |target.1| > |CollectionUrl| + 1 && target.1[..|CollectionUrl| + 1] == CollectionUrl + "/"
    ensures initial.Some? && initial.value.resource >= 0 ==>
              NumberOf(target.1[|CollectionUrl| + 1..]) == Some(initial.value.resource)
  {
    if initial.Some? then
      var url := CollectionUrl + "/" + IntToString(initial.value.resource);
      assert url[|CollectionUrl| + 1..] == IntToString(initial.value.resource);
      (Put, url)
    else
      (Post, CollectionUrl)
  }

  /**
   * The answer to the fetch: a network failure, or a status with the body as
   * response.json() reads it (None when the body is not JSON).
   */
  datatype FetchResult = NetworkError | Answered(status: int, body: Option<JsonValue>)

  /** What the user is told once the fetch settles; a conflict shows the value passed to toast.error. */
  datatype Notice = Saved(clientName: string) | Conflict(shown: JsonValue) | SaveError(text: string)

  const SlotRequired: string := "Selecione um horário."
  const ConflictDefault: string := "Este horário já está agendado."
  const SaveFailed: string := "Oops! Algo deu errado ao salvar."

  /**
   * A 2xx answer saves (toast and onSuccess). A 409 destructures `message` from
   * the JSON body and shows it, or the default when it is falsy; a body that is
   * not JSON, or is JSON null, makes that read throw. Every throw, every other
   * status and every network failure end in the generic error toast.
   */
  function NoticeFor(result: FetchResult, clientName: string): (notice: Notice)
    ensures notice.Saved? <==> result.Answered? && 200 <= result.status < 300
    ensures notice.Saved? ==> notice.clientName == clientName
    ensures notice.Conflict? <==>
              result.Answered? && result.status == 409 && result.body.Some? && result.body.value != JNull
    ensures notice.Conflict? ==>
              !Falsy(Some(notice.shown)) &&
              (Falsy(Property(result.body.value, "message")) ==> notice.shown == JString(ConflictDefault)) &&
              (!Falsy(Property(result.body.value, "message")) ==> Property(result.body.value, "message") == Some(notice.shown))
    ensures notice.SaveError? ==> notice.text == SaveFailed
  {
    match result
    case NetworkError => SaveError(SaveFailed)
    case Answered(status, body) =>
      if 200 <= status < 300 then Saved(clientName)
      else if status == 409 then
        if body.None? || body.value == JNull then SaveError(SaveFailed)
        else
          var message := Property(body.value, "message");
          Conflict(if Falsy(message) then JString(ConflictDefault) else message.value)
      else SaveError(SaveFailed)
  }

  /** The POST handler never answers 409, so the form's conflict branch never runs after a create. */
  lemma NoConflictAfterCreate(response: BookingsRoute.Response, body: Option<JsonValue>, clientName: string)
    requires response.Status() != 409
    ensures !NoticeFor(Answered(response.Status(), body), clientName).Conflict?
  {
  }

  // ----------------------------------------------------------- form state

  /** The AgendamentoForm component's state. */
  class Form {
    /** agendamentoInicial: the booking being edited, if any. */
    var initial: Option<HomePage.Event>
    /** The values form.reset last put in the fields. */
    var fields: FormValues
    /** horaSelecionada */
    var selectedSlot: Option<string>
    /** erroHora */
    var slotError: Option<string>
    /** isSubmitting */
    var submitting: bool

    /** The selected slot is always "HH:MM": it comes from the grid or from format(start, 'HH:mm'). */
    ghost predicate Valid()
      reads this
    {
      selectedSlot.Some? ==> ClockShaped(selectedSlot.value)
    }

    /** First render, then the effect that loads `initial` into the fields. */
    constructor (initial: Option<HomePage.Event>, now: Instant)
      ensures Valid() && this.initial == initial && slotError.None? && !submitting
      ensures if initial.Some? && initial.value.start.Some? then
                fields == FormValues(initial.value.title.GetOr(""), initial.value.start, initial.value.value.GetOr(0)) &&
                selectedSlot == Some(FormatClock(initial.value.start.value))
              else
                fields == FormValues("", Some(now), 0) && selectedSlot.None?
    {
      this.initial := initial;
      fields := FormValues("", Some(now), 0);
      selectedSlot := None;
      slotError := None;
      submitting := false;
      new;
      Reset(initial, now);
    }

    /**
     * The effect on agendamentoInicial: with a start, prefill name, date, value
     * and the slot of that start; otherwise clear to the defaults.
     */
    method Reset(initial: Option<HomePage.Event>, now: Instant)
      modifies this
      ensures Valid() && this.initial == initial
      ensures if initial.Some? && initial.value.start.Some? then
                fields == FormValues(initial.value.title.GetOr(""), initial.value.start, initial.value.value.GetOr(0)) &&
                selectedSlot == Some(FormatClock(initial.value.start.value))
              else
                fields == FormValues("", Some(now), 0) && selectedSlot.None?
      ensures slotError == old(slotError) && submitting == old(submitting)
    {
      this.initial := initial;
      if initial.Some? && initial.value.start.Some? {
        var start := initial.value.start.value;
        fields := FormValues(initial.value.title.GetOr(""), initial.value.start, initial.value.value.GetOr(0));
        FormatClockShaped(start);
        selectedSlot := Some(FormatClock(start));
      } else {
        fields := FormValues("", Some(now), 0);
        selectedSlot := None;
      }
    }

    /** A click on slot button i: select it and clear the slot error. */
    method SelectSlot(i: nat)
      requires i < SlotCount
      modifies this
      ensures Valid()
      ensures selectedSlot == Some(AvailableSlots()[i]) && slotError.None?
      ensures initial == old(initial) && fields == old(fields) && submitting == old(submitting)
    {
      var slot := AvailableSlots()[i];
      SlotRoundTrip(i);
      assert ParseClock(slot).Some?;
      selectedSlot := Some(slot);
      slotError := None;
    }

    /**
     * form.handleSubmit(onSubmit) up to the fetch: schema errors stop it; a
     * missing slot sets the slot error and sends nothing; otherwise the slot's
     * hour and minute are set on a copy of the chosen date, seconds and
     * milliseconds zeroed, and the request for the current mode goes out.
     */
    method Submit(values: FormValues) returns (outcome: SubmitOutcome)
      requires Valid()
      modifies this
      ensures Valid()
      ensures Validate(values) != [] ==>
                outcome == Invalid(Validate(values)) &&
                slotError == old(slotError) && submitting == old(submitting)
      ensures Validate(values) == [] && selectedSlot.None? ==>
                outcome == SlotMissing && slotError == Some(SlotRequired) && submitting == old(submitting)
      ensures Validate(values) == [] && selectedSlot.Some? ==>
                var clock := ClockOf(selectedSlot.value);
                outcome == Send(SaveRequest(Target(initial).0, Target(initial).1, values.clientName,
                                            SetHours(values.date.value, clock.hours, clock.minutes, 0, 0), values.value)) &&
                slotError.None? && submitting
      ensures initial == old(initial) && fields == old(fields) && selectedSlot == old(selectedSlot)
    {
      var issues := Validate(values);
      if issues != [] {
        outcome := Invalid(issues);
        return;
      }
      if selectedSlot.None? {
        slotError := Some(SlotRequired);
        outcome := SlotMissing;
        return;
      }
      slotError := None;
      submitting := true;
      var clock := ClockOf(selectedSlot.value);
      var at := values.date.value;
      at := SetHours(at, clock.hours, clock.minutes, 0, 0);
      var (verb, url) := Target(initial);
      outcome := Send(SaveRequest(verb, url, values.clientName, at, values.value));
    }

    /** The rest of onSubmit once the fetch settles; `finally` clears isSubmitting. */
    method Finish(result: FetchResult, clientName: string) returns (notice: Notice)
      requires Valid()
      modifies this
      ensures Valid()
      ensures notice == NoticeFor(result, clientName) && !submitting
      ensures initial == old(initial) && fields == old(fields)
      ensures selectedSlot == old(selectedSlot) && slotError == old(slotError)
    {
      notice := NoticeFor(result, clientName);
      submitting := false;
    }
  }

  /** Where a submit stops: schema errors, no slot selected, or a request sent. */
  datatype SubmitOutcome = Invalid(issues: seq<Issue>) | SlotMissing | Send(request: SaveRequest)
}
