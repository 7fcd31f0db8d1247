// abc.js handlerCreate and handlerDelete over the appointment collection and
// its tombstone collection appointment_deleted.

module Store {

  import opened Common
  import opened Appointments
  import opened Conflict
  import opened Creation
  import opened Payloads
  import opened Automation
  import opened Notify
  import Listing

  datatype CreateError =
    | Invalid(reason: ValidationError)
    | Overlapping
    | CreateNotifyFailed(lookup: LookupFailure)

  datatype DeleteError =
    | NotFound
    | DeleteNotifyFailed(lookup: LookupFailure)

  const OverlapMessage := "Appointment is overlapping with another appointment."
  const NotFoundMessage := "Appointment not found."
  const DeletedMessage := "Appointment deleted successfully."

  /** The message of the failure response; a TypeError's message is not
      modelled. */
  function CreateMessage(e: CreateError): Option<string>
  {
    match e
    case Invalid(reason) => Some(Message(reason))
    case Overlapping => Some(OverlapMessage)
    case CreateNotifyFailed(_) => None
  }

  function DeleteMessage(e: DeleteError): Option<string>
  {
    match e
    case NotFound => Some(NotFoundMessage)
    case DeleteNotifyFailed(_) => None
  }

  /** The live appointments in collection order, and the tombstones by _id. */
  class AppointmentStore {

    var docs: seq<Appointment>
    var deleted: map<Id, Appointment>

    /** Ids are unique, every stored range is well ordered, and no contact is
        double-booked on a date string. */
    ghost predicate Valid()
      reads this
    {
      UniqueIds(docs) && WellOrdered(docs) && NoDoubleBooking(docs)
    }

    constructor()
      ensures Valid()
      ensures docs == [] && deleted == map[]
    {
      docs := [];
      deleted := map[];
    }

    /** handlerCreate. now is the request instant in milliseconds, actor and
        orgId the authorizer's user and organisation, newId the _id insertOne
        assigns. The record is written before callAutomation runs, so a
        failed lookup there gives a failure response with the record stored. */
    method Create(req: CreateRequest, fmt: Formats, now: int, actor: Id, orgId: Id, newId: Id,
                  dir: Directory, autoDb: Option<seq<AutomationDef>>, aws: Aws)
      returns (r: Result<Appointment, CreateError>, calls: seq<Execution>)
      requires Valid()
      requires Find(docs, newId).None?
      modifies this
      ensures Valid()
      ensures deleted == old(deleted)
      ensures Validate(req, fmt, now).Failure? ==>
        && r == Failure(Invalid(Validate(req, fmt, now).error)) && docs == old(docs) && calls == []
        && CreateMessage(r.error) == Some(Message(Validate(req, fmt, now).error))
      ensures Validate(req, fmt, now).Success? ==>
        var rec := NewRecord(newId, req, Validate(req, fmt, now).value, req.tags, actor, orgId, now);
        var c := CandidateOf(req, Validate(req, fmt, now).value);
        && (|Blocking(old(docs), c)| > 0 ==>
              r == Failure(Overlapping) && CreateMessage(r.error) == Some(OverlapMessage) && docs == old(docs) && calls == [])
        && (|Blocking(old(docs), c)| == 0 ==>
              && docs == old(docs) + [rec]
              && (Resolve(docs, dir, newId).Failure? ==>
                    && Resolve(docs, dir, newId).error != AppointmentMissing
                    && r == Failure(CreateNotifyFailed(Resolve(docs, dir, newId).error)) && calls == [])
              && (Resolve(docs, dir, newId).Success? ==>
                    var contact := Resolve(docs, dir, newId).value.1;
                    && r == Success(rec)
                    && TriggerOutcome(calls, orgId, PayloadOf(rec, contact, ContactTagIds(contact)),
                                      AppointmentCreate, autoDb, aws)))
    {
      calls := [];
      var v := Validate(req, fmt, now);
      if v.Failure? {
        return Failure(Invalid(v.error)), calls;
      }
      var slot := v.value;
      var c := CandidateOf(req, slot);
      var checkAvailability := Blocking(docs, c);
      if |checkAvailability| > 0 {
        return Failure(Overlapping), calls;
      }
      var tags := CopyTagIds(req.tags);
      assert tags == req.tags;
      var rec := NewRecord(newId, req, slot, tags, actor, orgId, now);
      FindAfterAppend(docs, rec);
      InsertKeepsNoDoubleBooking(docs, c, rec);
      docs := docs + [rec];
      var n, sent := CallAutomation(docs, dir, autoDb, aws, newId, AppointmentCreate);
      r := if n.Success? then Success(rec) else Failure(CreateNotifyFailed(n.error));
      calls := sent;
    }

    /** handlerDelete. A known appointment is copied to the tombstones, keyed
        by its _id, and removed; callAutomation then looks the removed id up
        again, finds nothing and fails, so the handler answers with a failure
        and the appointmentDeleted event is never dispatched. */
    method Delete(id: Id, dir: Directory, autoDb: Option<seq<AutomationDef>>, aws: Aws)
      returns (r: Result<string, DeleteError>, calls: seq<Execution>)
      requires Valid()
      modifies this
      ensures Valid()
      ensures Find(old(docs), id).None? ==>
        && r == Failure(NotFound) && DeleteMessage(r.error) == Some(NotFoundMessage)
        && docs == old(docs) && deleted == old(deleted) && calls == []
      ensures Find(old(docs), id).Some? ==>
        && deleted == old(deleted)[id := Find(old(docs), id).value]
        && docs == Remove(old(docs), id)
        && r == Failure(DeleteNotifyFailed(AppointmentMissing))
        && calls == []
    {
      calls := [];
      var data := Find(docs, id);
      if data.None? {
        return Failure(NotFound), calls;
      }
      deleted := deleted[id := data.value];
      RemoveEffect(docs, id);
      docs := Remove(docs, id);
      var n, sent := CallAutomation(docs, dir, autoDb, aws, data.value.id, AppointmentDeleted);
      r := if n.Success? then Success(DeletedMessage) else Failure(DeleteNotifyFailed(n.error));
      calls := sent;
    }

    /** handlerDelete as the handler evidently means it: it dispatches
        appointmentDeleted for the record it just removed and then answers
        'Appointment deleted successfully.', so here the event goes out for
        the pre-delete snapshot, and the answer is a success unless the
        organisation or contact lookup fails. */
    method DeleteWithSnapshot(id: Id, dir: Directory, autoDb: Option<seq<AutomationDef>>, aws: Aws)
      returns (r: Result<string, DeleteError>, calls: seq<Execution>)
      requires Valid()
      modifies this
      ensures Valid()
      ensures Find(old(docs), id).None? ==>
        && r == Failure(NotFound) && DeleteMessage(r.error) == Some(NotFoundMessage)
        && docs == old(docs) && deleted == old(deleted) && calls == []
      ensures Find(old(docs), id).Some? ==>
        var snapshot := Find(old(docs), id).value;
        && deleted == old(deleted)[id := snapshot]
        && docs == Remove(old(docs), id)
        && (Resolve(old(docs), dir, id).Failure? ==>
              && Resolve(old(docs), dir, id).error != AppointmentMissing
              && r == Failure(DeleteNotifyFailed(Resolve(old(docs), dir, id).error)) && calls == [])
        && (Resolve(old(docs), dir, id).Success? ==>
              var contact := Resolve(old(docs), dir, id).value.1;
              && r == Success(DeletedMessage)
              && TriggerOutcome(calls, snapshot.orgId, PayloadOf(snapshot, contact, ContactTagIds(contact)),
                                AppointmentDeleted, autoDb, aws))
    {
      calls := [];
      var data := Find(docs, id);
      if data.None? {
        return Failure(NotFound), calls;
      }
      var snapshot := docs;
      deleted := deleted[id := data.value];
      RemoveEffect(docs, id);
      docs := Remove(docs, id);
      var n, sent := CallAutomation(snapshot, dir, autoDb, aws, data.value.id, AppointmentDeleted);
      r := if n.Success? then Success(DeletedMessage) else Failure(DeleteNotifyFailed(n.error));
      calls := sent;
    }
  }

  /** Deleting the same id twice: the second call answers 'Appointment not
      found.' and changes nothing. */
  method DeleteTwice(s: AppointmentStore, id: Id, dir: Directory, autoDb: Option<seq<AutomationDef>>, aws: Aws)
    returns (first: Result<string, DeleteError>, second: Result<string, DeleteError>)
    requires s.Valid()
    requires Find(s.docs, id).Some?
    modifies s
    ensures s.Valid()
    ensures first.Failure? && first.error != NotFound
    ensures second == Failure(NotFound) && DeleteMessage(second.error) == Some(NotFoundMessage)
    ensures s.docs == Remove(old(s.docs), id)
    ensures s.deleted == old(s.deleted)[id := Find(old(s.docs), id).value]
  {
    var calls;
    first, calls := s.Delete(id, dir, autoDb, aws);
    RemoveEffect(old(s.docs), id);
    second, calls := s.Delete(id, dir, autoDb, aws);
  }

  /** A deleted appointment is gone from every later listing. */
  lemma DeletedNotListed(docs: seq<Appointment>, id: Id, users: map<Id, User>, tagColl: seq<Tag>,
                         contactId: Id, orgId: Id, pageId: Option<int>, limit: int)
    requires UniqueIds(docs)
    ensures var r := Listing.List(Remove(docs, id), users, tagColl, contactId, orgId, pageId, limit);
      r.Success? ==> forall x :: x in r.value.appointments ==> x.id != id
  {
    var rest := Remove(docs, id);
    RemoveEffect(docs, id);
    Listing.ListedItemsBelong(rest, users, tagColl, contactId, orgId, pageId, limit);
    var r := Listing.List(rest, users, tagColl, contactId, orgId, pageId, limit);
    if r.Success? {
      var js := Listing.JoinStage(Listing.OwnedBy(rest, contactId, orgId), users, tagColl);
      forall x | x in r.value.appointments ensures x.id != id {
        var i :| 0 <= i < |js| && x == Listing.ExpectedItem(js[i], users);
        assert js[i] in js;
        assert js[i].doc in rest;
      }
    }
  }
}
