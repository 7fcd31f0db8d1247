// The appointment document as the store holds it, and the two collection
// operations the handlers use on it: lookup by _id and hard deletion by _id.

module Appointments {

  import opened Common

  /** An entry of an appointment's reschedule log; only the user reference
      takes part in the listing, everything else travels through unchanged. */
  datatype HistoryEntry = HistoryEntry(rescheduledBy: Option<Id>, details: string)

  /** fromDateTime and toDateTime stand for the fixed-width
      "YYYY-MM-DD HH:mm:ss" strings, whose lexicographic order is
      chronological: here they are minutes on one time line. createdAt and
      updatedAt stand for the same kind of string, in seconds. */
  datatype Appointment = Appointment(
    id: Id,
    agenda: string,
    contactId: Id,
    orgId: Id,
    date: string,
    fromTime: string,
    toTime: string,
    fromDateTime: int,
    toDateTime: int,
    tags: seq<Id>,
    history: seq<HistoryEntry>,
    status: string,
    createdBy: Id,
    updatedBy: Id,
    createdAt: int,
    updatedAt: int,
    note: Option<string>)

  const Scheduled := "scheduled"
  const Rescheduled := "rescheduled"

  /** The statuses the overlap query looks at. */
  predicate Active(a: Appointment)
  {
    a.status == Scheduled || a.status == Rescheduled
  }

  /** A user document; either name part may be missing. */
  datatype User = User(firstName: Option<string>, lastName: Option<string>)

  datatype Tag = Tag(id: Id, name: string)

  predicate UniqueIds(docs: seq<Appointment>)
  {
    forall i, j :: 0 <= i < j < |docs| ==> docs[i].id != docs[j].id
  }

  function IdOf(a: Appointment): Id
  {
    a.id
  }

  /** findById on the appointments. */
  function Find(docs: seq<Appointment>, id: Id): (r: Option<Appointment>)
    ensures r.Some? ==> r.value in docs && r.value.id == id
    ensures r.None? <==> forall i :: 0 <= i < |docs| ==> docs[i].id != id
  {
    FindBy(docs, IdOf, id)
  }

  /** deleteForce({_id: {$in: [id]}}): every document with that _id is removed,
      the others keep their order. */
  function Remove(docs: seq<Appointment>, id: Id): (r: seq<Appointment>)
    ensures forall i :: 0 <= i < |r| ==> r[i].id != id
    ensures forall a :: a in r <==> a in docs && a.id != id
    ensures |r| <= |docs|
  {
    if docs == [] then []
    else if docs[0].id == id then Remove(docs[1..], id)
    else [docs[0]] + Remove(docs[1..], id)
  }

  lemma {:induction false} UniqueTail(docs: seq<Appointment>)
    requires docs != [] && UniqueIds(docs)
    ensures UniqueIds(docs[1..])
    ensures forall i :: 0 <= i < |docs[1..]| ==> docs[1..][i].id != docs[0].id
  {
    forall i, j | 0 <= i < j < |docs[1..]| ensures docs[1..][i].id != docs[1..][j].id {
      assert docs[1..][i] == docs[i + 1] && docs[1..][j] == docs[j + 1];
    }
    forall i | 0 <= i < |docs[1..]| ensures docs[1..][i].id != docs[0].id {
      assert docs[1..][i] == docs[i + 1];
    }
  }

  /** Removal of an id no document has changes nothing. */
  lemma {:induction false} RemoveAbsent(docs: seq<Appointment>, id: Id)
    requires Find(docs, id).None?
    ensures Remove(docs, id) == docs
  {
    if docs != [] {
      RemoveAbsent(docs[1..], id);
      assert docs == [docs[0]] + docs[1..];
    }
  }

  lemma {:induction false} RemoveFinds(docs: seq<Appointment>, id: Id, other: Id)
    requires other != id
    ensures Find(Remove(docs, id), other) == Find(docs, other)
  {
    if docs != [] {
      RemoveFinds(docs[1..], id, other);
      if docs[0].id != id {
        var r := Remove(docs, id);
        assert r == [docs[0]] + Remove(docs[1..], id);
        assert r[1..] == Remove(docs[1..], id);
      }
    }
  }

  lemma {:induction false} RemoveUnique(docs: seq<Appointment>, id: Id)
    requires UniqueIds(docs)
    ensures UniqueIds(Remove(docs, id))
    ensures Find(docs, id).Some? ==> |Remove(docs, id)| == |docs| - 1
  {
    if docs != [] {
      UniqueTail(docs);
      RemoveUnique(docs[1..], id);
      var rest := Remove(docs[1..], id);
      if docs[0].id == id {
        RemoveAbsent(docs[1..], id);
      } else {
        var r := Remove(docs, id);
        assert r == [docs[0]] + rest;
        forall i, j | 0 <= i < j < |r| ensures r[i].id != r[j].id {
          if i == 0 {
            assert r[j] == rest[j - 1];
            assert r[j] in docs[1..];
          } else {
            assert r[i] == rest[i - 1] && r[j] == rest[j - 1];
          }
        }
      }
    }
  }

  /** After removal the id is unknown, every other id finds what it found
      before, and no id is duplicated. */
  lemma RemoveEffect(docs: seq<Appointment>, id: Id)
    requires UniqueIds(docs)
    ensures Find(Remove(docs, id), id).None?
    ensures forall other :: other != id ==> Find(Remove(docs, id), other) == Find(docs, other)
    ensures UniqueIds(Remove(docs, id))
    ensures Find(docs, id).Some? ==> |Remove(docs, id)| == |docs| - 1
    ensures Find(docs, id).None? ==> Remove(docs, id) == docs
  {
    forall other | other != id ensures Find(Remove(docs, id), other) == Find(docs, other) {
      RemoveFinds(docs, id, other);
    }
    RemoveUnique(docs, id);
    if Find(docs, id).None? {
      RemoveAbsent(docs, id);
    }
  }

  /** insertOne of a document with a fresh _id: it is found by that id, every
      other id finds what it found before, and ids stay unique. */
  lemma {:induction false} FindAfterAppend(docs: seq<Appointment>, r: Appointment)
    requires UniqueIds(docs) && Find(docs, r.id).None?
    ensures Find(docs + [r], r.id) == Some(r)
    ensures forall other :: other != r.id ==> Find(docs + [r], other) == Find(docs, other)
    ensures UniqueIds(docs + [r])
  {
    forall other | true ensures other != r.id ==> Find(docs + [r], other) == Find(docs, other) {
      FindAppendOther(docs, r, other);
    }
    FindAppendOther(docs, r, r.id);
    var s := docs + [r];
    forall i, j | 0 <= i < j < |s| ensures s[i].id != s[j].id {
      if j < |docs| {
        assert s[i] == docs[i] && s[j] == docs[j];
      } else {
        assert s[i] == docs[i];
      }
    }
  }

  lemma {:induction false} FindAppendOther(docs: seq<Appointment>, r: Appointment, id: Id)
    requires Find(docs, r.id).None?
    ensures id != r.id ==> Find(docs + [r], id) == Find(docs, id)
    ensures id == r.id ==> Find(docs + [r], id) == Some(r)
  {
    if docs == [] {
      assert [] + [r] == [r];
      assert [r][1..] == [];
    } else {
      assert (docs + [r])[0] == docs[0] && (docs + [r])[1..] == docs[1..] + [r];
      FindAppendOther(docs[1..], r, id);
    }
  }
}
