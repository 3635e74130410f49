# Clinic desk assistant: clock text, booked slots and the /chat decision

This project models the deterministic part of the clinic desk-assistant
server (`backend/server.js`). The assistant talks to patients through a
language model and stores the appointments the model books. Three pieces of
the server are logic, not plumbing:

- **Startup clock text** (lines 23-35). The server reads the clock once and
  turns the reading into a `year-month-day` date, a 12-hour `H:MM AM|PM`
  time and a weekday name. The date and time go into the model's
  instructions. Here the reading is a `WallClock` value whose fields stay in
  the ranges the JavaScript `Date` accessors return.
- **Booked-slot projection** (`isBooked`, lines 38-45). Each stored
  appointment becomes a `{date, time}` pair.
- **The /chat decision** (lines 102-120). The model's reply has already
  been parsed into a JSON value `obj`. If `obj.query != null`, the handler
  builds an Appointment by copying `name`, `contact`, `doctor`, `date` and
  `time` and saves it. A failed save answers 500 with
  `{message: "Error saving appointment."}`. Every other case answers 200
  with `{obj}`. Whether the save succeeds is an input.

Modules: `Wrappers` (Option), `Decimal` (how JavaScript writes integers
into template literals), `Strings` (split and index-of, used by the
readers), `ClockText`, `PromptLine` (the instruction sentence of line 77),
`Json` (parsed values, property reads, loose `!= null`), `Appointments`,
and `ChatRoute`.

Each formatter has an independent parser as its partner:
`ParseDate` / `ParseTime` / `WeekdayNumber`. Both directions are proved.
Format then parse returns the reading. Every text the parser accepts is the
formatter's output for the value it reads. So the formats are injective and
lose nothing.

A booking assistant might be expected to enforce business hours, five
appointments per hour, no past dates, a search for the next free slot,
sessions and rejection reasons. This code does none of that. The clinic's
policy is only natural-language instructions to the language model (lines
68 and 78-82), and no code checks it. The model follows the code and does
not present any scheduling rule as enforced. The reply is also not a
`{reply, booking, outcome}` record. It is `{obj}` with status 200, or a
message with status 500.

## Model

| member | source | states |
|---|---|---|
| Decimal.NatText | backend/server.js:27-32 | an interpolated non-negative integer is a canonical numeral (no padding, no leading zero) denoting exactly that number; one character iff below 10, at most two iff below 100 |
| Decimal.IntText | backend/server.js:24-27 | an interpolated integer such as the year is a leading '-' exactly when negative, followed by the canonical numeral of its magnitude |
| Decimal.NatTextOfValue | backend/server.js:27-32 | every canonical numeral is the text of the number it denotes, so integer rendering and reading are inverse |
| ClockText.FormatDate | backend/server.js:24-27 | the date text reads back as year, 0-based month plus one, and day of month, so the month lies in 1..12 and no field is padded |
| ClockText.FormatDateExample | backend/server.js:24-27 | month index 0, day 5 of 2024 is written "2024-1-5" with nothing padded |
| ClockText.ParseDateFormats | backend/server.js:24-27 | every unpadded `Y-M-D` text with month 1..12 and day 1..31 is exactly the date text of the date it reads |
| ClockText.DisplayHour | backend/server.js:28-31 | `hours % 12 \|\| 12` lies in 1..12 and agrees with the 24-hour hour modulo 12 |
| ClockText.Meridiem | backend/server.js:30 | the suffix is "AM" or "PM", and "PM" exactly when the hour is 12 or more |
| ClockText.TwelveHourCases | backend/server.js:30-31 | hour 0 shows as 12 AM, hour 12 as 12 PM, hours 1..11 unchanged with AM, hours 13..23 minus 12 with PM |
| ClockText.MinuteText | backend/server.js:32 | the minutes are exactly two digits denoting the minutes, with a leading '0' exactly when they are below 10 |
| ClockText.FormatTime | backend/server.js:28-32 | the time text has the shape `H:MM AM\|PM` (7 or 8 characters, ':' and ' ' in place, the meridiem last) and reads back as the 24-hour hour and the minutes |
| ClockText.FormatTimeExamples | backend/server.js:28-32 | 14:30 is written "2:30 PM" as the source comment says, midnight 0:05 is "12:05 AM" and noon is "12:00 PM" |
| ClockText.ParseTimeFormats | backend/server.js:28-32 | every `H:MM AM\|PM` text with H in 1..12 and MM below 60 is exactly the time text of the time it reads |
| ClockText.FormatTimeInjective | backend/server.js:30-32 | distinct in-range (hour, minute) readings give distinct time texts, and equal readings give equal texts |
| ClockText.DayName | backend/server.js:33-35 | the weekday lookup is defined on all of 0..6 and names the day that the reference numbering (Sunday 0 to Saturday 6) gives that number |
| ClockText.DayNameInverse | backend/server.js:33-35 | a name has number d in the Sunday-first order exactly when d is in 0..6 and the lookup of d is that name |
| ClockText.ReadClock | backend/server.js:23-35 | from one reading, the date text reads back as the date, `day` is the day of month, the time text reads back as hours and minutes, and the name has the reading's weekday number |
| ClockText.ReadClockInjective | backend/server.js:23-35 | two valid readings give the same startup values exactly when they are the same reading |
| PromptLine.TodayLine | backend/server.js:77 | for every valid reading, the text after the date in the sentence as written is the day-of-month numeral, so the sentence names no weekday after the date |
| PromptLine.TodayLineExample | backend/server.js:77 | the reading Thursday 2024-10-10 09:00 gives the sentence with date "2024-10-10", "10" after it and time "9:00 AM", which names no weekday after the date |
| PromptLine.TodayLineWithWeekday | backend/server.js:77 | with `${dayName}` interpolated, for every valid reading the text after the date is the weekday name, and the weekday named there is the reading's weekday |
| PromptLine.TodayLineWithWeekdayExample | backend/server.js:77 | with the weekday interpolated, the same Thursday reading puts "Thursday" after the date, and the sentence reads back as weekday 4 |
| Json.Get | backend/server.js:102-110 | a property read gives an object's own member of that name, and undefined for a missing member and for every non-object value |
| Json.NotNullish | backend/server.js:102 | the loose `!= null` is false exactly for undefined and null, and true for every other value |
| Json.FalsyValuesAreNotNull | backend/server.js:102 | the falsy values "", false and 0 pass `!= null`; only undefined and null fail it |
| ChatRoute.AppointmentFrom | backend/server.js:104-110 | each of the five schema fields of the new appointment is the query's property of the same name |
| ChatRoute.AppointmentFromQueryOf | backend/server.js:104-110 | building an appointment from the object holding an appointment's defined fields gives that appointment back, so copying loses nothing |
| ChatRoute.QueryOfAppointmentFrom | backend/server.js:104-110 | for an object query, the built appointment keeps exactly the query's properties among the five schema names, with their values, and drops every other property |
| Appointments.BookedSlots | backend/server.js:38-45 | the slot list has one entry per record, in order, and entry i carries exactly record i's date and time |
| Appointments.BookedSlotsAppend | backend/server.js:38-45 | projecting a store of older records followed by newer ones gives the older slots followed by the newer ones |
| Appointments.BookedSlotsSeesOnlyDateTime | backend/server.js:40-43 | two equally long stores give the same slots exactly when they agree record by record on date and time, whatever their other fields |
| ChatRoute.HandleChat | backend/server.js:102-120 | no reply when obj is null (the read of `obj.query` throws outside the try); otherwise an appointment is built exactly when `obj.query` is neither null nor undefined, with the five fields copied verbatim; status 500 with the fixed message exactly when a built appointment fails to save; otherwise status 200 with `{obj}` |
| ChatRoute.ClientSeesReply | backend/server.js:113-120 | a 200 body carries the parsed reply unchanged under `obj`, and a 500 body carries the fixed message instead |
| ChatRoute.NoQueryIgnoresSave | backend/server.js:102-120 | without a query the answer is 200 with `{obj}` and no booking, whether or not a save would have succeeded |
| ChatRoute.QuerySavesSameAppointment | backend/server.js:102-116 | with a query the same appointment is submitted whatever the save does; success gives 200 and failure 500 |
| ChatRoute.BookingAddsQuerySlot | backend/server.js:104-112 | once the saved appointment follows the earlier records in the store, the booked slots gain exactly the query's date and time at the end |
| ChatRoute.EmptyStringQueryBooks | backend/server.js:102-110 | a reply whose query is the empty string (the shape the instructions at line 83 show) passes `!= null` and is booked with every field undefined |

## Left out

- Scheduling policy (4-6 pm, Monday to Friday, five per hour, no past
  dates, next available slot). It appears only in the instruction text
  (lines 68, 78-82) and no code checks it, so it is not modelled as
  behaviour.
- The language-model session, its instruction text other than line 77, and
  `sendMessage` (lines 53-93, 99-100). These are calls to an external
  service.
- `JSON.parse` of the model's reply (line 101). The route is modelled from
  the parsed value. A reply that is not JSON throws there, and that path is
  not modelled.
- MongoDB connection, `find` and `save` (lines 14-18, 39, 112). This is I/O.
  The save is a success/failure input. The records `find` returns are a
  parameter.
- ChatRoute.HandleChat: Mongoose casts fields on save (`date` becomes a
  `Date`, and a non-castable value makes the save fail). That casting is
  folded into the save-outcome input. The stored records are modelled with
  the field values as given, without `_id` or the `createdAt`/`updatedAt`
  timestamps.
- The `bookedSlots` promise and its `catch` (lines 46-50, 80). The promise
  is interpolated into the instructions as a promise object and never
  delivers slot data, so it is not modelled as a slot list.
- Express/CORS setup, the error middleware and `listen` (lines 3-10, 95,
  123-131). This is transport plumbing.
- ChatRoute.HandleChat: `Unhandled` assumes Express 4. There a rejected
  async handler is an unhandled rejection and no reply is sent; on Node 15
  or later it also ends the process. Under Express 5 the rejection would
  reach the error middleware at line 123, whose misordered parameters make
  it throw, and the default handler would answer 500. The Express version
  in use is not part of this model.
- Logging (`console.log` and `console.error` at lines 15, 17, 114, 124 and
  130) is output only and changes no outcome.
- ChatRoute.BookingAddsQuerySlot: states the slot the saved appointment adds
  to the modelled store, not what the running server sees. The schema
  declares `date: Date` (backend/schema/Appointment.js:7), so a stored
  record's date is a Date object, not the query's string. `bookedSlots`
  (line 46) is also computed once at startup and never again.
- `backend/schema/Doctor.js` declares a schema and has no behaviour.
  `backend/schema/Appointment.js` supplies only the field list of
  `Appointment`.
- `frontend/src/VoiceDots.jsx`: speech capture, `fetch`, React state and
  rendering.
- Reading the clock (`new Date()`, line 23). The reading is a parameter.
- ClockText.WallClock: the weekday is an independent field in 0..6. It is
  not derived from the date, and day-of-month is not checked against the
  month's length. The formatting does not depend on either.
- Json.Json: numbers keep their literal text and object member order is not
  kept. The route never inspects either.

## Findings

| source | as written | input that shows it | evidently intended | confidence | as-written member | corrected member |
|---|---|---|---|---|---|---|
| backend/server.js:77 | the sentence interpolates `${day}`, the day of the month, after the date; `dayName` (line 35) is computed but never used | the reading Thursday 2024-10-10 09:00 (getDay() is 4) gives "Remember that today is 2024-10-10, 10. The current time is 9:00 AM.", which names no weekday | `${dayName}`, so that the model can tell the weekday for the Monday-to-Friday rule | medium, not executed | PromptLine.TodayLine | PromptLine.TodayLineWithWeekday |
