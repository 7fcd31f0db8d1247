// abc.js callAutomation: the three lookups (appointment, organisation,
// contact), the contact's tag ids, and the hand-off to the dispatcher.

module Notify {

  import opened Common
  import opened Appointments
  import opened Payloads
  import opened Automation
  import Text

  datatype Organization = Organization(code: string)

  /** The collections callAutomation reads besides the appointments: the
      organisations by _id, and the per-organisation contact collections by
      name. A collection that does not exist reads as empty. */
  datatype Directory = Directory(orgs: map<Id, Organization>, collections: map<string, seq<Contact>>)

  /** The TypeError a null lookup result causes further on. */
  datatype LookupFailure = AppointmentMissing | OrganizationMissing | ContactMissing

  /** The name of an organisation's contact collection. */
  function ContactsCollection(code: string): (r: string)
    ensures |r| == 9 + |code|
    ensures r[..9] == "contacts_"
    ensures forall i :: 0 <= i < |code| ==> r[9 + i] == Text.LowerChar(code[i])
  {
    Text.Lower("contacts_" + code)
  }

  function Collection(dir: Directory, name: string): seq<Contact>
  {
    if name in dir.collections then dir.collections[name] else []
  }

  function ContactIdOf(c: Contact): Id
  {
    c.id
  }

  /** findById on a contact collection. */
  function FindContact(cs: seq<Contact>, id: Id): (r: Option<Contact>)
    ensures r.Some? ==> r.value in cs && r.value.id == id
    ensures r.None? <==> forall i :: 0 <= i < |cs| ==> cs[i].id != id
  {
    FindBy(cs, ContactIdOf, id)
  }

  /** The lookups in source order; the first one that finds nothing ends the
      call. */
  function Resolve(docs: seq<Appointment>, dir: Directory, id: Id): (r: Result<(Appointment, Contact), LookupFailure>)
    ensures r == Failure(AppointmentMissing) <==> Find(docs, id).None?
    ensures r == Failure(OrganizationMissing) <==>
      Find(docs, id).Some? && Find(docs, id).value.orgId !in dir.orgs
    ensures r == Failure(ContactMissing) <==>
      && Find(docs, id).Some? && Find(docs, id).value.orgId in dir.orgs
      && var cs := Collection(dir, ContactsCollection(dir.orgs[Find(docs, id).value.orgId].code));
         FindContact(cs, Find(docs, id).value.contactId).None?
    ensures r.Success? ==>
      && Find(docs, id) == Some(r.value.0)
      && r.value.0.orgId in dir.orgs
      && r.value.1 in Collection(dir, ContactsCollection(dir.orgs[r.value.0.orgId].code))
      && r.value.1.id == r.value.0.contactId
  {
    match Find(docs, id)
    case None => Failure(AppointmentMissing)
    case Some(a) =>
      if a.orgId !in dir.orgs then Failure(OrganizationMissing)
      else
        match FindContact(Collection(dir, ContactsCollection(dir.orgs[a.orgId].code)), a.contactId)
        case None => Failure(ContactMissing)
        case Some(c) => Success((a, c))
  }

  /** The tagsArr loop: the _id of each tag object, in order. */
  method CollectTagIds(c: Contact) returns (tagsArr: seq<Id>)
    ensures tagsArr == ContactTagIds(c)
  {
    tagsArr := [];
    if c.tags.Some? && |c.tags.value| > 0 {
      var tags := c.tags.value;
      var t := 0;
      while t < |tags|
        invariant 0 <= t <= |tags|
        invariant |tagsArr| == t
        invariant forall k :: 0 <= k < t ==> tagsArr[k] == tags[k].id
      {
        tagsArr := tagsArr + [tags[t].id];
        t := t + 1;
      }
    }
  }

  /** Looks the appointment up again, builds the payload and runs the
      dispatcher for event op on the automation collection autoDb. A failed
      lookup ends the call before anything is started; otherwise the call
      reports true. */
  method CallAutomation(docs: seq<Appointment>, dir: Directory, autoDb: Option<seq<AutomationDef>>, aws: Aws,
                        id: Id, op: string)
    returns (r: Result<bool, LookupFailure>, calls: seq<Execution>)
    ensures Resolve(docs, dir, id).Failure? ==> r == Failure(Resolve(docs, dir, id).error) && calls == []
    ensures Resolve(docs, dir, id).Success? ==>
      && r == Success(true)
      && var a, c := Resolve(docs, dir, id).value.0, Resolve(docs, dir, id).value.1;
         TriggerOutcome(calls, a.orgId, PayloadOf(a, c, ContactTagIds(c)), op, autoDb, aws)
  {
    calls := [];
    var found := Find(docs, id);
    if found.None? {
      return Failure(AppointmentMissing), calls;
    }
    var data := found.value;
    if data.orgId !in dir.orgs {
      return Failure(OrganizationMissing), calls;
    }
    var org := dir.orgs[data.orgId];
    var contactsCollection := ContactsCollection(org.code);
    var contact := FindContact(Collection(dir, contactsCollection), data.contactId);
    if contact.None? {
      return Failure(ContactMissing), calls;
    }
    var tagsArr := CollectTagIds(contact.value);
    var payload := PayloadOf(data, contact.value, tagsArr);
    var _, sent := TriggerContactAutomation(data.orgId, payload, op, autoDb, aws);
    r, calls := Success(true), sent;
  }

  /** The event names the handlers pass. */
  const AppointmentCreate := "appointmentCreate"
  const AppointmentDeleted := "appointmentDeleted"
}
