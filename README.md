# Barbershop booking core, modelled in Dafny

This project models the booking logic of a small barbershop scheduling app. The app is a Next.js front end with two Prisma-backed route handlers:

- **Booking form** (`AgendamentoForm.tsx`).
  - A grid of 28 half-hour slot labels runs from "08:00" to "21:30".
  - A form schema checks the entered values.
  - The submit handler parses the chosen label back into hour and minute and stamps them onto the chosen date.
  - It sends a POST for a new booking or a PUT for an edited one, then reports the answer.
- **Day view** (`ListaAgendamentosDia.tsx`).
  - It shows the bookings of the selected calendar day in start order, with their total value.
  - The selected day can move one day back or forward.
- **Home page** (`page.tsx`).
  - Each record of the listing becomes a one-hour calendar event.
  - The page keeps the state of the booking dialog: open or closed, and the booking being edited, if any.
- **Bookings route** (`api/agendamentos/route.ts`).
  - GET lists all bookings ordered by date/time.
  - POST checks that a client name and a date/time are present, then inserts one row.
- **Revenue route** (`api/dashboard/faturamento/route.ts`). Three sums of the booking values over closed windows around one instant:
  - the day;
  - the Monday-to-Sunday week;
  - the calendar month.

Conventions used throughout:

- Time is an integer number of milliseconds on the local wall clock, and the day of an instant is `t / 86400000` (`Calendar`). The date-fns helpers the code calls are defined on that scale:
  - `startOfDay` and `endOfDay`;
  - `startOfWeek` and `endOfWeek`, using the `getDay` numbering;
  - `startOfMonth` and `endOfMonth`, using a proleptic Gregorian month table;
  - `addDays` and `subDays`;
  - `setHours`;
  - `format(…, 'HH:mm')`.
- Money is integer cents.
- `undefined` is `Option.None`; JSON `null` is `JNull`.
- The JavaScript string operations the form relies on live in `Text`: `toString`, `padStart`, `split` and `Number`.
- A keyed insertion sort stands for `Array.prototype.sort` with an `a - b` comparator (`Ordering`).
- The Prisma table is a sequence of rows owned by a `BookingTable` object.

Two behaviours of the code run against what its other parts expect; the model keeps the code as written:

- The POST handler does no slot-conflict check and never answers 409. The form nevertheless has a branch for a 409. The model keeps both as written: `BookingsRoute.DoubleBookingAccepted` books the same instant twice, and `BookingForm.NoConflictAfterCreate` shows that the form's conflict branch cannot follow a create.
- The event type of the Home page has no `valor` field, and the mapping never sets one. The day view reads `valor` from those events, so for loaded events its total is always 0 (`DayList.LoadedTotalIsZero`).

## Model

| member | source | states |
|---|---|---|
| Calendar.StartOfDay | src/app/api/dashboard/faturamento/route.ts:16 | startOfDay(t) is midnight of t's own day: at or before t and less than one day before it |
| Calendar.EndOfDay | src/app/api/dashboard/faturamento/route.ts:17 | endOfDay(t) is the last millisecond of t's day: the next millisecond is on the following day |
| Calendar.DayWindow | src/app/api/dashboard/faturamento/route.ts:16-28 | an instant lies in the closed window [startOfDay(now), endOfDay(now)] if and only if it is on now's calendar day |
| Calendar.WeekStartDay | src/app/api/dashboard/faturamento/route.ts:31 | startOfWeek moves back 0 to 6 days, to a day whose weekday is weekStartsOn |
| Calendar.WeekEndDay | src/app/api/dashboard/faturamento/route.ts:32 | endOfWeek's day is 0 to 6 days ahead, exactly six days after startOfWeek's day |
| Calendar.MondayWeekBounds | src/app/api/dashboard/faturamento/route.ts:31-32 | with weekStartsOn 1 the week opens on a Monday and closes on a Sunday |
| Calendar.StartOfWeek | src/app/api/dashboard/faturamento/route.ts:31 | startOfWeek(t) is a midnight at or before t, on a day with weekday weekStartsOn, less than 7 days before t's day |
| Calendar.EndOfWeek | src/app/api/dashboard/faturamento/route.ts:32 | endOfWeek(t) is at or after t, is the last millisecond of its day, and that day is six days after startOfWeek's |
| Calendar.MondayWeekWindow | src/app/api/dashboard/faturamento/route.ts:31-43 | an instant lies in [startOfWeek(now), endOfWeek(now)] if and only if it is in now's Monday-to-Sunday week |
| Calendar.DaysInMonth | src/app/api/dashboard/faturamento/route.ts:46-47 | every month has 28 to 31 days |
| Calendar.FirstDayMonotone | src/app/api/dashboard/faturamento/route.ts:46-47 | later months start no earlier than earlier ones |
| Calendar.YearLength | src/app/api/dashboard/faturamento/route.ts:46-47 | the months of a year span 366 days in a leap year and 365 otherwise |
| Calendar.MarchFirst | src/app/api/dashboard/faturamento/route.ts:46-47 | 1 March is 59 days after 1 January in a common year and 60 in a leap year |
| Calendar.MonthTableSamples | src/app/api/dashboard/faturamento/route.ts:46-47 | for y = 1972, 1 March of y is day 790 after the epoch and 1 December of y - 3 is day -31 |
| Calendar.MonthOf | src/app/api/dashboard/faturamento/route.ts:46-47 | the month found for a day starts on or before it, and the next month starts after it |
| Calendar.MonthUnique | src/app/api/dashboard/faturamento/route.ts:46-47 | a day lies in exactly one month |
| Calendar.StartOfMonth | src/app/api/dashboard/faturamento/route.ts:46 | startOfMonth(t) is the midnight at or before t that opens t's month |
| Calendar.EndOfMonth | src/app/api/dashboard/faturamento/route.ts:47 | endOfMonth(t) is at or after t and is the last millisecond before the next month opens |
| Calendar.MonthWindow | src/app/api/dashboard/faturamento/route.ts:46-58 | an instant lies in [startOfMonth(now), endOfMonth(now)] if and only if it is in now's calendar month |
| Calendar.DayInsideWeekAndMonth | src/app/api/dashboard/faturamento/route.ts:16-47 | the day window of now lies inside both its week window and its month window |
| Calendar.SetHours | src/components/AgendamentoForm.tsx:87 | setHours(h, m, s, ms) with in-range parts keeps the calendar day and yields exactly hour h and minute m, with s seconds and ms milliseconds past the minute |
| Calendar.AddDays | src/components/ListaAgendamentosDia.tsx:50 | addDays(t, n) is n calendar days later at the same time of day |
| Calendar.SubDays | src/components/ListaAgendamentosDia.tsx:49 | subDays(t, n) is n calendar days earlier at the same time of day |
| Text.ToDecimal | src/components/AgendamentoForm.tsx:23 | toString writes decimal digits with no leading zero: one digit exactly below 10, two from 10 to 99 |
| Text.DecimalRoundTrip | src/components/AgendamentoForm.tsx:85 | Number of the digits toString wrote gives the number back |
| Text.NumberOf | src/components/AgendamentoForm.tsx:85 | Number gives a value exactly when the text is all digits, and that value is not negative |
| Text.NumberOfDecimal | src/components/AgendamentoForm.tsx:85 | Number of the text toString writes for a non-negative integer gives the integer back |
| Text.PadStart | src/components/AgendamentoForm.tsx:23 | padStart reaches the target length (or keeps a longer string), ends with the string, and is pad characters before it |
| Text.TwoDigitsRoundTrip | src/components/AgendamentoForm.tsx:23 | below 100, toString().padStart(2, '0') is exactly two digits that read back as the number |
| Text.Split | src/components/AgendamentoForm.tsx:85 | split gives at least one piece and no piece holds the separator |
| Text.SplitJoin | src/components/AgendamentoForm.tsx:85 | joining the pieces of a split with the separator gives the string back |
| Text.SplitAtSeparator | src/components/AgendamentoForm.tsx:85 | a string with the separator exactly once splits into the text before it and the text after it |
| Text.IntToString | src/components/AgendamentoForm.tsx:89 | the template text of an id reads back as that id (after the minus sign for a negative one) |
| Ordering.Filter | src/components/ListaAgendamentosDia.tsx:39 | filter keeps each element the predicate accepts, as often as it occurs, and nothing else |
| Ordering.Insert | src/components/ListaAgendamentosDia.tsx:40 | inserting into a sorted sequence keeps it sorted and adds exactly the new element |
| Ordering.SortBy | src/components/ListaAgendamentosDia.tsx:40 | the sort result is ordered by the key and is a permutation of its input |
| Json.Property | src/app/api/agendamentos/route.ts:31 | destructuring a field gives the value stored under that key exactly when the body is an object holding the key, undefined otherwise |
| Json.Falsy | src/app/api/agendamentos/route.ts:34 | `!x` holds exactly for undefined, null, false, 0 and the empty string |
| BookingsRoute.DateFrom | src/app/api/agendamentos/route.ts:46 | `new Date(x)` parses a string, takes an in-range number as is (otherwise invalid), reads true as 1, false and null as 0, and is invalid for arrays and objects |
| BookingsRoute.Decide | src/app/api/agendamentos/route.ts:28-47 | POST answers 400 exactly when the body is an object (or other non-null value) whose nome_cliente or data_hora is missing or falsy; an unreadable or null body, a non-string name or an invalid date gives 500; otherwise the name and the parsed date are accepted |
| BookingsRoute.OnlyNameAndDateRead | src/app/api/agendamentos/route.ts:31-47 | changing any field other than nome_cliente and data_hora (valor included) does not change what POST decides |
| BookingsRoute.BookingTable.List | src/app/api/agendamentos/route.ts:5-24 | GET returns every row ordered by data_hora ascending (a permutation of the table), or 500 'Erro ao buscar agendamentos.' when the store fails; it changes nothing |
| BookingsRoute.BookingTable.Create | src/app/api/agendamentos/route.ts:27-60 | a rejected body changes nothing and gets 400 or 500; an accepted one appends exactly one row with a fresh id, the given name and the parsed date, answered 201; a store failure gives 500 'Erro ao criar agendamento.'; 409 never |
| BookingsRoute.DoubleBookingAccepted | src/app/api/agendamentos/route.ts:27-60 | the same valid body posted twice is accepted twice (201, 201), leaving two bookings at one instant |
| HomePage.ToEvent | src/app/page.tsx:44-47 | a record maps to an event titled nome_cliente, with resource id, start data_hora, end one hour later and no valor |
| HomePage.ToEvents | src/app/page.tsx:43-48 | one event per record, in order: title is nome_cliente, resource is id, start is data_hora, end exactly one hour after start, no valor |
| HomePage.Home.constructor | src/app/page.tsx:29-33 | the page opens with the dialog closed, no edit target, no events, loading, the first fetch started |
| HomePage.Home.StartFetch | src/app/page.tsx:35-38 | a fetch sets loading and changes nothing else |
| HomePage.Home.FetchCompleted | src/app/page.tsx:39-54 | a listing replaces the events by its mapped events; an error keeps them; loading ends either way |
| HomePage.Home.HandleSuccess | src/app/page.tsx:62-66 | a successful save closes the dialog, clears the edit target and fetches again |
| HomePage.Home.OpenNew | src/app/page.tsx:68-71 | the new-booking button opens the dialog with no edit target |
| HomePage.Home.OpenEdit | src/app/page.tsx:73-76 | editing a booking opens the dialog with that booking as target |
| HomePage.Home.OnOpenChange | src/app/page.tsx:110-113 | closing the dialog clears the edit target; no state leaves a target with the dialog closed |
| HomePage.Home.ChangeDate | src/app/page.tsx:94 | a date change sets the selected date and nothing else |
| HomePage.Home.DialogTitle | src/app/page.tsx:116 | the dialog reads 'Editar Agendamento' exactly when an edit target is set, and 'Novo Agendamento' when none is |
| DayList.DayBookings | src/components/ListaAgendamentosDia.tsx:38-40 | a booking is listed if and only if it has a start on the selected day; the list is in non-decreasing start order and is a permutation of the filtered bookings |
| DayList.DayTotal | src/components/ListaAgendamentosDia.tsx:43-47 | an empty day totals 0; with no negative values the total is not negative |
| DayList.TotalSorted | src/components/ListaAgendamentosDia.tsx:40-47 | sorting does not change the day total |
| DayList.DayTotalIsListedSum | src/components/ListaAgendamentosDia.tsx:38-47 | the day total is the sum of the numeric values of exactly the listed bookings, non-numbers counting 0 |
| DayList.LoadedTotalIsZero | src/components/ListaAgendamentosDia.tsx:45 | for events built by the Home page's mapping, which carry no valor, the day total is 0 |
| DayList.PreviousDay | src/components/ListaAgendamentosDia.tsx:49 | the previous-day button selects the calendar day before, at the same time of day |
| DayList.NextDay | src/components/ListaAgendamentosDia.tsx:50 | the next-day button selects the calendar day after, at the same time of day |
| DayList.Today | src/components/ListaAgendamentosDia.tsx:51 | the today button selects the current instant |
| DayList.Navigation | src/components/ListaAgendamentosDia.tsx:49-50 | previous and next undo each other |
| BookingForm.AvailableSlots | src/components/AgendamentoForm.tsx:20 | the slot list has 28 entries |
| BookingForm.SlotIsClock | src/components/AgendamentoForm.tsx:21-23 | entry i of the slot list, SlotLabel(i), has five characters: the tens and units digits of the hour i / 2 + 8, a colon, then '0' and '0' for even i or '3' and '0' for odd i |
| BookingForm.SlotGridEnds | src/components/AgendamentoForm.tsx:20-24 | the grid has 28 slots, from "08:00" to "21:30" |
| BookingForm.SlotRoundTrip | src/components/AgendamentoForm.tsx:21-23 | every slot is five characters "HH:MM", and parsing it with split(':') and Number gives back the hour and minute it was built from |
| BookingForm.SlotOrder | src/components/AgendamentoForm.tsx:20-24 | slots are strictly increasing in minutes of the day (480 + 30 i), adjacent ones exactly 30 minutes apart, and pairwise distinct |
| BookingForm.ParseClock | src/components/AgendamentoForm.tsx:85 | a label without a colon gives no clock, and a parsed hour and minute are never negative |
| BookingForm.ClockShapedParses | src/components/AgendamentoForm.tsx:85 | a five-character label with digits around a colon parses to its two-digit hour and minute |
| BookingForm.ClockOf | src/components/AgendamentoForm.tsx:85 | the hour and minute the handler reads are what the split-and-Number parse yields, each below 100 |
| BookingForm.ClockRoundTrip | src/components/AgendamentoForm.tsx:85 | a two-digit hour and minute joined by a colon parse back to that hour and minute |
| BookingForm.SlotInstant | src/components/AgendamentoForm.tsx:85-87 | the submitted instant for slot i is on the chosen date's calendar day, at minute 480 + 30 i of the day, with zero seconds and milliseconds |
| BookingForm.FormatClockShaped | src/components/AgendamentoForm.tsx:65 | FormatClock, format(start, 'HH:mm'), has the shape of a slot label |
| BookingForm.FormatClockRoundTrip | src/components/AgendamentoForm.tsx:65 | the label of an edited booking parses back to its start's hour and minute |
| BookingForm.ResubmitTruncatesToMinute | src/components/AgendamentoForm.tsx:65-87 | resubmitting an edited booking on its own date and slot gives its start truncated to the minute |
| BookingForm.IssueMessagesDistinct | src/components/AgendamentoForm.tsx:28-32 | the name, date and value rules each report their own message, so no two rules share one |
| BookingForm.Validate | src/components/AgendamentoForm.tsx:27-33 | the schema flags a name shorter than 2 characters, a missing date and a negative value, each exactly when it occurs, and passes only when none does |
| BookingForm.Target | src/components/AgendamentoForm.tsx:89-90 | edit mode sends a PUT to /api/agendamentos/{resource}, whose id reads back as the resource; otherwise a POST to /api/agendamentos |
| BookingForm.NoticeFor | src/components/AgendamentoForm.tsx:103-120 | a 2xx answer saves; a 409 whose body reads as JSON other than null shows the body's message, or the default when it is falsy; a 409 whose body is not JSON or is null, any other status and any network failure show the generic error |
| BookingForm.NoConflictAfterCreate | src/components/AgendamentoForm.tsx:104-106 | a response whose status is not 409 (as every response of the POST handler) never leads to the conflict notice |
| BookingForm.Form.constructor | src/components/AgendamentoForm.tsx:42-74 | the form starts with no slot error and not submitting, then loads the initial booking as Reset does |
| BookingForm.Form.Reset | src/components/AgendamentoForm.tsx:58-74 | a booking with a start prefills name ('' if none), date, value (0 if none) and the slot format(start, 'HH:mm'); otherwise the fields are cleared to today and no slot is selected |
| BookingForm.Form.SelectSlot | src/components/AgendamentoForm.tsx:221-222 | clicking slot i selects its label and clears the slot error |
| BookingForm.Form.Submit | src/components/AgendamentoForm.tsx:77-101 | invalid values stop the submit with their issues; with no slot the error 'Selecione um horário.' is set and no request goes out; otherwise the request for the mode carries the name, the value and the date stamped with the slot's hour and minute, and submitting is set |
| BookingForm.Form.Finish | src/components/AgendamentoForm.tsx:103-120 | the notice follows NoticeFor, submitting is cleared in every case and the form's invariant is kept |
| RevenueRoute.SumInRange | src/app/api/dashboard/faturamento/route.ts:18-28 | the aggregate is null exactly when no row in the window has a value; with non-negative values it is not negative |
| RevenueRoute.WindowTotal | src/app/api/dashboard/faturamento/route.ts:62-64 | a window with no valued row reads as 0, not null; with non-negative values the total is not negative |
| RevenueRoute.WindowIsPeriod | src/app/api/dashboard/faturamento/route.ts:16-58 | each of the three windows holds exactly the instants of now's day, week or month |
| RevenueRoute.WindowTotalIsPeriodTotal | src/app/api/dashboard/faturamento/route.ts:18-58 | each windowed sum equals the sum of the values of exactly the rows dated in now's day, Monday week or month |
| RevenueRoute.DayTotalBelowPeriod | src/app/api/dashboard/faturamento/route.ts:16-58 | with non-negative values the day's total is at least 0 and at most the week's and the month's |
| RevenueRoute.Revenue | src/app/api/dashboard/faturamento/route.ts:11-73 | a failing store gives 500 'Erro interno do servidor.'; otherwise hoje, semana and mes are the day, week and month totals around the one instant now, and with non-negative values hoje ≤ semana and hoje ≤ mes |

## Left out

- Network, UI and logging: fetch, toast, console and React rendering are not modelled. Neither are the Popover/Calendar widgets or the disabled state of the submit button. A response's status and body are parameters.
- Time zones and daylight saving time: the local clock is a uniform millisecond line.
- Text dates: `new Date(string)` is the `parseDate` parameter. The toISOString/parse round trip between the form, the handler and the page is taken to preserve the instant.
- Floating point: values are integer cents. JavaScript number addition and Prisma `Decimal.toNumber()` are not modelled. Neither is the text-to-number coercion of the value field; the schema receives the value as an integer.
- Text.NumberOf: reads decimal digit strings only, with the empty string as 0. `Number()` on whitespace, signs, fractions or exponents is not modelled; the labels parsed here are always digits.
- BookingForm.Validate: counts Unicode characters for the two-character minimum, where zod counts UTF-16 code units.
- BookingForm.Form.Submit: the fetch itself is not modelled. The method stops at the request and the rest is Finish.
- BookingsRoute.BookingTable: ids come from a counter and the valor column default is a parameter. Database id allocation, SQL semantics and concurrent requests are not modelled.
- RevenueRoute.Revenue: all three sums read one snapshot of the table. The three separate queries could see different states of a changing table.
- JSON numbers are integers. Date coercion of arrays and objects in a POST body counts as an invalid date.
- The PUT and DELETE handlers (`src/app/api/agendamentos/[id]/route.ts`) are not part of this model. Neither is the day view's delete dialog. Only the `Number(params.id)` read of the PUT url is used, to show that the form's url carries the id.
- Display-only code is not part of this model:
  - locale formatting with ptBR and `formatCurrency`;
  - `Dashboard.tsx`, `FaturamentoDashboard.tsx` and `layout.tsx`.
- Ordering.SortBy: the relative order of bookings with equal start times is not stated.
