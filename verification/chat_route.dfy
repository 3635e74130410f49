/** The decision the POST /chat handler takes once the model's reply is
    parsed (backend/server.js:102-120): book when the reply carries a query,
    then answer 500 if saving failed and 200 with the parsed reply otherwise.
    Whether the save succeeds is an input. */
module ChatRoute {
  import opened Wrappers
  import opened Json
  import opened Appointments

  datatype HttpReply = HttpReply(status: int, body: Json)

  datatype ChatOutcome =
      /** A reply was sent; `booking` is the appointment handed to save(), if any. */
    | Handled(booking: Option<Appointment>, reply: HttpReply)
      /** `obj.query` threw (obj is null) outside the try block. Under Express 4,
          which does not catch a rejected async handler, no reply is sent. */
    | Unhandled

  const SaveErrorBody: Json := JObject(map["message" := JString("Error saving appointment.")])

  /** `new Appointment({ name: q.name, contact: q.contact, ... })`: each
      schema field is the query's property of the same name. */
  function AppointmentFrom(query: Json): (a: Appointment)
    ensures forall key :: key in FieldNames ==> FieldOf(a, key) == Get(query, key)
  {
    Appointment(Get(query, "name"), Get(query, "contact"), Get(query, "doctor"),
                Get(query, "date"), Get(query, "time"))
  }

  /** Copying loses nothing of an appointment: the query holding its defined
      fields builds it back. */
  lemma AppointmentFromQueryOf(a: Appointment)
    ensures AppointmentFrom(QueryOf(a)) == a
  {
    var b := AppointmentFrom(QueryOf(a));
    assert FieldOf(b, "name") == FieldOf(a, "name");
    assert FieldOf(b, "contact") == FieldOf(a, "contact");
    assert FieldOf(b, "doctor") == FieldOf(a, "doctor");
    assert FieldOf(b, "date") == FieldOf(a, "date");
    assert FieldOf(b, "time") == FieldOf(a, "time");
  }

  /** Copying keeps exactly the five schema properties of an object query,
      with their values, and drops every other property. */
  lemma QueryOfAppointmentFrom(query: Json)
    requires query.JObject?
    ensures QueryOf(AppointmentFrom(query)).members.Keys == query.members.Keys * FieldNames
    ensures forall key :: key in QueryOf(AppointmentFrom(query)).members ==>
      QueryOf(AppointmentFrom(query)).members[key] == query.members[key]
  {
    var a := AppointmentFrom(query);
    var m := QueryOf(a).members;
    forall key | key in query.members.Keys * FieldNames
      ensures key in m
    {
      assert FieldOf(a, key) == Get(query, key);
    }
    forall key | key in m
      ensures key in query.members.Keys * FieldNames && m[key] == query.members[key]
    {
      assert FieldOf(a, key) == Get(query, key);
    }
  }

  function HandleChat(obj: Json, saveSucceeds: bool): (r: ChatOutcome)
    ensures r.Unhandled? <==> obj == JNull
    ensures r.Handled? ==> (r.booking.Some? <==> NotNullish(Get(obj, "query")))
    ensures r.Handled? && r.booking.Some? ==>
      var q := Get(obj, "query").value;
      && r.booking.value.name == Get(q, "name")
      && r.booking.value.contact == Get(q, "contact")
      && r.booking.value.doctor == Get(q, "doctor")
      && r.booking.value.date == Get(q, "date")
      && r.booking.value.time == Get(q, "time")
    ensures r.Handled? ==> r.reply.status == 200 || r.reply.status == 500
    ensures r.Handled? ==> (r.reply.status == 500 <==> r.booking.Some? && !saveSucceeds)
    ensures r.Handled? && r.reply.status == 500 ==> r.reply.body == SaveErrorBody
    ensures r.Handled? && r.reply.status == 200 ==> r.reply.body == JObject(map["obj" := obj])
  {
    if obj == JNull then Unhandled
    else
      var query := Get(obj, "query");
      if NotNullish(query) then
        var appointment := AppointmentFrom(query.value);
        if saveSucceeds then Handled(Some(appointment), HttpReply(200, JObject(map["obj" := obj])))
        else Handled(Some(appointment), HttpReply(500, SaveErrorBody))
      else Handled(None, HttpReply(200, JObject(map["obj" := obj])))
  }

  /** What the client reads back: the parsed reply itself under `obj` on
      success, and no `obj` at all on a failed save. */
  lemma ClientSeesReply(obj: Json, saveSucceeds: bool)
    requires HandleChat(obj, saveSucceeds).Handled?
    ensures var reply := HandleChat(obj, saveSucceeds).reply;
      && (reply.status == 200 <==> Get(reply.body, "obj") == Some(obj))
      && (reply.status == 500 <==> Get(reply.body, "message") == Some(JString("Error saving appointment.")))
  {
  }

  /** Without a query nothing is saved, so the save's fate cannot matter:
      the answer is 200 with the reply either way. */
  lemma NoQueryIgnoresSave(obj: Json)
    requires obj != JNull && !NotNullish(Get(obj, "query"))
    ensures HandleChat(obj, true) == HandleChat(obj, false)
    ensures HandleChat(obj, true) == Handled(None, HttpReply(200, JObject(map["obj" := obj])))
  {
  }

  /** With a query the same appointment is submitted whatever the save does;
      only the status and body depend on it. */
  lemma QuerySavesSameAppointment(obj: Json)
    requires obj != JNull && NotNullish(Get(obj, "query"))
    ensures HandleChat(obj, true).booking == HandleChat(obj, false).booking
    ensures HandleChat(obj, true).reply.status == 200 && HandleChat(obj, false).reply.status == 500
  {
  }

  /** A successful booking, once the store holds it after the earlier records,
      adds exactly the query's date and time to the booked slots. */
  lemma BookingAddsQuerySlot(obj: Json, stored: seq<Appointment>)
    requires obj != JNull && NotNullish(Get(obj, "query"))
    ensures var a := HandleChat(obj, true).booking.value;
      var q := Get(obj, "query").value;
      BookedSlots(stored + [a]) == BookedSlots(stored) + [Slot(Get(q, "date"), Get(q, "time"))]
  {
    var a := HandleChat(obj, true).booking.value;
    BookedSlotsAppend(stored, [a]);
  }

  /** The instructions describe the reply as `{ reply: "", query: "" }`. An
      empty-string query is not null, so it is booked: every field of the
      appointment is undefined. */
  lemma EmptyStringQueryBooks(reply: string, saveSucceeds: bool)
    ensures var obj := JObject(map["reply" := JString(reply), "query" := JString("")]);
      HandleChat(obj, saveSucceeds).booking == Some(Appointment(None, None, None, None, None))
  {
  }
}
