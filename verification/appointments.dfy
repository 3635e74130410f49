/** The Appointment record (backend/schema/Appointment.js:3-11) and the
    projection of stored appointments onto booked slots done by `isBooked`
    (backend/server.js:38-45). */
module Appointments {
  import opened Wrappers
  import opened Json

  /** A field as handed to the Appointment constructor: undefined (None) or
      whatever JSON value the model's query held. */
  type Field = Option<Json>

  datatype Appointment = Appointment(name: Field, contact: Field, doctor: Field,
                                     date: Field, time: Field)

  /** The schema's field names. */
  const FieldNames: set<string> := {"name", "contact", "doctor", "date", "time"}

  /** The schema field called `key`; undefined for any other key. */
  function FieldOf(a: Appointment, key: string): Field {
    if key == "name" then a.name
    else if key == "contact" then a.contact
    else if key == "doctor" then a.doctor
    else if key == "date" then a.date
    else if key == "time" then a.time
    else None
  }

  /** The JSON object holding exactly the defined fields of `a`. */
  function QueryOf(a: Appointment): Json {
    JObject(map key | key in FieldNames && FieldOf(a, key).Some? :: FieldOf(a, key).value)
  }

  /** `{ date, time }`: one booked slot. */
  datatype Slot = Slot(date: Field, time: Field)

  /** `response.map(r => ({ date: r.date, time: r.time }))`. */
  function BookedSlots(records: seq<Appointment>): (slots: seq<Slot>)
    ensures |slots| == |records|
    ensures forall i :: 0 <= i < |records| ==>
      slots[i].date == records[i].date && slots[i].time == records[i].time
    decreases |records|
  {
    if |records| == 0 then []
    else
      var last := records[|records| - 1];
      BookedSlots(records[..|records| - 1]) + [Slot(last.date, last.time)]
  }

  /** Projecting a store that grew by some records projects the old records,
      then the new ones, in order. */
  lemma {:induction false} BookedSlotsAppend(a: seq<Appointment>, b: seq<Appointment>)
    ensures BookedSlots(a + b) == BookedSlots(a) + BookedSlots(b)
  {
    var l := BookedSlots(a + b);
    var r := BookedSlots(a) + BookedSlots(b);
    assert |l| == |r|;
    forall i | 0 <= i < |l| ensures l[i] == r[i] {
      if i < |a| {
        assert (a + b)[i] == a[i];
      } else {
        assert (a + b)[i] == b[i - |a|];
      }
    }
  }

  /** The projection sees dates and times only: two stores give the same
      slots exactly when they agree, record by record, on date and time,
      whatever their names, contacts and doctors. */
  lemma BookedSlotsSeesOnlyDateTime(a: seq<Appointment>, b: seq<Appointment>)
    requires |a| == |b|
    ensures BookedSlots(a) == BookedSlots(b) <==>
      forall i :: 0 <= i < |a| ==> a[i].date == b[i].date && a[i].time == b[i].time
  {
    if forall i :: 0 <= i < |a| ==> a[i].date == b[i].date && a[i].time == b[i].time {
      assert forall i :: 0 <= i < |a| ==> BookedSlots(a)[i] == BookedSlots(b)[i];
    } else {
      var i :| 0 <= i < |a| && !(a[i].date == b[i].date && a[i].time == b[i].time);
      assert BookedSlots(a)[i] != BookedSlots(b)[i];
    }
  }
}
