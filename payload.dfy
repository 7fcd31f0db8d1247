// The automation payload of abc.js callAutomation: appointment fields renamed
// to appointment_*, tag lists flattened to comma-joined strings.

module Payloads {

  import opened Common
  import opened Appointments
  import Text

  datatype ContactTag = ContactTag(id: Id)

  /** A contact document: its tags, when present, are objects with an _id;
      every other field is carried along untouched. */
  datatype Contact = Contact(id: Id, tags: Option<seq<ContactTag>>, fields: map<string, string>)

  /** The appointment_* fields. */
  datatype AppointmentFields = AppointmentFields(
    agenda: string,
    contactId: Id,
    date: string,
    toTime: string,
    toDateTime: int,
    fromTime: string,
    fromDateTime: int,
    tags: string,
    status: string,
    orgId: Id,
    createdBy: Id,
    updatedBy: Id,
    createdAt: int,
    updatedAt: int)

  /** The object handed to the dispatcher. How the contact's fields and the
      appointment_* fields are merged is not recoverable from the source, so
      the two parts are kept side by side. orgId, automationId and execArn
      are the fields the dispatcher stamps on it. */
  datatype Payload = Payload(
    contactId: Id,
    contactFields: map<string, string>,
    contactTags: string,
    appointment: AppointmentFields,
    orgId: Option<Id>,
    automationId: Option<Id>,
    execArn: Option<string>)

  /** The ids of the contact's tag objects, in order; none when the contact
      has no tags. */
  function ContactTagIds(c: Contact): (r: seq<Id>)
    ensures c.tags.None? ==> r == []
    ensures c.tags.Some? ==> |r| == |c.tags.value| && forall i :: 0 <= i < |r| ==> r[i] == c.tags.value[i].id
  {
    if c.tags.None? then [] else seq(|c.tags.value|, i requires 0 <= i < |c.tags.value| => c.tags.value[i].id)
  }

  /** Every appointment_* field is the stored field; appointment_tags is the
      stored tag ids joined with commas. */
  function FieldsOf(a: Appointment): (f: AppointmentFields)
    ensures f.agenda == a.agenda && f.contactId == a.contactId && f.date == a.date
    ensures f.toTime == a.toTime && f.toDateTime == a.toDateTime
    ensures f.fromTime == a.fromTime && f.fromDateTime == a.fromDateTime
    ensures f.status == a.status && f.orgId == a.orgId
    ensures f.createdBy == a.createdBy && f.updatedBy == a.updatedBy
    ensures f.createdAt == a.createdAt && f.updatedAt == a.updatedAt
    ensures f.tags == Text.JoinComma(a.tags)
  {
    AppointmentFields(a.agenda, a.contactId, a.date, a.toTime, a.toDateTime, a.fromTime, a.fromDateTime,
                      Text.JoinComma(a.tags), a.status, a.orgId, a.createdBy, a.updatedBy, a.createdAt, a.updatedAt)
  }

  /** The payload for one appointment and its contact, before the dispatcher
      stamps it. */
  function PayloadOf(a: Appointment, c: Contact, contactTagIds: seq<Id>): (p: Payload)
    ensures p.appointment == FieldsOf(a) && p.contactTags == Text.JoinComma(contactTagIds)
    ensures p.contactId == c.id && p.contactFields == c.fields
    ensures p.orgId.None? && p.automationId.None? && p.execArn.None?
  {
    Payload(c.id, c.fields, Text.JoinComma(contactTagIds), FieldsOf(a), None, None, None)
  }

  predicate CommaFreeIds(ids: seq<Id>)
  {
    forall i :: 0 <= i < |ids| ==> Text.CommaFree(ids[i])
  }

  /** The flattened tag strings keep every id and its order: splitting them at
      the commas gives the ids back (object ids hold no comma). An empty list
      flattens to the empty string. */
  lemma TagStringsKeepIds(a: Appointment, c: Contact)
    requires CommaFreeIds(a.tags) && CommaFreeIds(ContactTagIds(c))
    ensures var p := PayloadOf(a, c, ContactTagIds(c));
      && (|a.tags| > 0 ==> Text.SplitComma(p.appointment.tags) == a.tags)
      && (a.tags == [] ==> p.appointment.tags == "")
      && (|ContactTagIds(c)| > 0 ==> Text.SplitComma(p.contactTags) == ContactTagIds(c))
      && (ContactTagIds(c) == [] ==> p.contactTags == "")
  {
    if |a.tags| > 0 {
      Text.SplitJoin(a.tags);
    }
    if |ContactTagIds(c)| > 0 {
      Text.SplitJoin(ContactTagIds(c));
    }
  }
}
