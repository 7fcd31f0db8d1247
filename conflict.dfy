// The overlap query of abc.js handlerCreate: which stored appointments block a
// candidate time range.

module Conflict {

  import opened Common
  import opened Appointments

  /** The query's four-way disjunction of inclusive comparisons, existing range
      [f, t] against the candidate [qs, qe]: existing inside the candidate, its
      end inside, its start inside, or existing covering the candidate. On
      well-formed ranges it is exactly closed-interval intersection, so ranges
      that only touch at an endpoint match. */
  function RangeClauses(f: int, t: int, qs: int, qe: int): (b: bool)
    ensures f <= t && qs <= qe ==> (b <==> f <= qe && qs <= t)
  {
    || (f >= qs && t <= qe)
    || (t >= qs && t <= qe)
    || (f >= qs && f <= qe)
    || (f <= qs && t >= qe)
  }

  /** What the conflict query is given: the raw date string and the two
      derived instants. */
  datatype Candidate = Candidate(contactId: Id, date: string, start: int, end: int)

  /** One document passes all four $match stages. The organisation is not
      part of the scope. */
  predicate Blocks(a: Appointment, c: Candidate)
  {
    && a.contactId == c.contactId
    && Active(a)
    && a.date == c.date
    && RangeClauses(a.fromDateTime, a.toDateTime, c.start, c.end)
  }

  /** The aggregate's result: the blocking documents in collection order. */
  function Blocking(docs: seq<Appointment>, c: Candidate): (r: seq<Appointment>)
    ensures forall a :: a in r <==> a in docs && Blocks(a, c)
    ensures |r| <= |docs|
  {
    if docs == [] then []
    else if Blocks(docs[0], c) then [docs[0]] + Blocking(docs[1..], c)
    else Blocking(docs[1..], c)
  }

  predicate WellOrdered(docs: seq<Appointment>)
  {
    forall i :: 0 <= i < |docs| ==> docs[i].fromDateTime <= docs[i].toDateTime
  }

  /** Same contact, active, same date string, and the closed intervals meet. */
  predicate ClosedConflict(a: Appointment, c: Candidate)
  {
    && a.contactId == c.contactId
    && Active(a)
    && a.date == c.date
    && a.fromDateTime <= c.end
    && c.start <= a.toDateTime
  }

  /** The create handler rejects exactly when some stored appointment of the
      same contact, active, on the identical date string, meets the candidate's
      closed interval. */
  lemma ConflictIsClosedOverlap(docs: seq<Appointment>, c: Candidate)
    requires WellOrdered(docs)
    requires c.start <= c.end
    ensures |Blocking(docs, c)| > 0 <==> exists i :: 0 <= i < |docs| && ClosedConflict(docs[i], c)
  {
    if |Blocking(docs, c)| > 0 {
      assert Blocking(docs, c)[0] in docs;
    }
    if i :| 0 <= i < |docs| && ClosedConflict(docs[i], c) {
      assert Blocks(docs[i], c);
      assert docs[i] in Blocking(docs, c);
    }
  }

  /** An existing 09:00-10:00 blocks a new 10:00-11:00 on the same date. */
  lemma TouchingRangesConflict(a: Appointment, c: Candidate)
    requires a.contactId == c.contactId && a.status == Scheduled && a.date == c.date
    requires a.fromDateTime == 9 * 60 && a.toDateTime == 10 * 60
    requires c.start == 10 * 60 && c.end == 11 * 60
    ensures Blocks(a, c)
  {
  }

  /** Two stored appointments double-book a contact: same contact, both
      active, same date string, and their closed intervals meet. */
  predicate Clash(a: Appointment, b: Appointment)
  {
    && a.contactId == b.contactId
    && Active(a) && Active(b)
    && a.date == b.date
    && a.fromDateTime <= b.toDateTime
    && b.fromDateTime <= a.toDateTime
  }

  predicate NoDoubleBooking(docs: seq<Appointment>)
  {
    forall a, b :: a in docs && b in docs && a != b ==> !Clash(a, b)
  }

  /** Adding an active record for the candidate's range keeps the store free of
      double bookings exactly when the overlap query finds nothing. */
  lemma InsertKeepsNoDoubleBooking(docs: seq<Appointment>, c: Candidate, r: Appointment)
    requires WellOrdered(docs) && NoDoubleBooking(docs)
    requires c.start <= c.end
    requires r !in docs && Active(r)
    requires r.contactId == c.contactId && r.date == c.date
    requires r.fromDateTime == c.start && r.toDateTime == c.end
    ensures NoDoubleBooking(docs + [r]) <==> |Blocking(docs, c)| == 0
  {
    ConflictIsClosedOverlap(docs, c);
    if |Blocking(docs, c)| == 0 {
      forall a, b | a in docs + [r] && b in docs + [r] && a != b ensures !Clash(a, b) {
        if a == r {
          assert b in docs;
          var i :| 0 <= i < |docs| && docs[i] == b;
          assert !ClosedConflict(docs[i], c);
        } else if b == r {
          assert a in docs;
          var i :| 0 <= i < |docs| && docs[i] == a;
          assert !ClosedConflict(docs[i], c);
        }
      }
    } else {
      var i :| 0 <= i < |docs| && ClosedConflict(docs[i], c);
      assert Clash(docs[i], r);
      assert docs[i] in docs + [r] && r in docs + [r];
    }
  }

  /** The overlap test the query evidently means: the same contact, active,
      and the closed intervals meet on the time line. fromDateTime and
      toDateTime already carry the day, so no date string is compared, and
      two spellings of one date cannot hide a conflict. */
  predicate BlocksAt(a: Appointment, c: Candidate)
  {
    && a.contactId == c.contactId
    && Active(a)
    && RangeClauses(a.fromDateTime, a.toDateTime, c.start, c.end)
  }

  /** The corrected aggregate: the documents blocking the candidate on the
      time line, in collection order. */
  function BlockingAt(docs: seq<Appointment>, c: Candidate): (r: seq<Appointment>)
    ensures forall a :: a in r <==> a in docs && BlocksAt(a, c)
    ensures |r| <= |docs|
  {
    if docs == [] then []
    else if BlocksAt(docs[0], c) then [docs[0]] + BlockingAt(docs[1..], c)
    else BlockingAt(docs[1..], c)
  }

  /** Two stored appointments overlap: same contact, both active, and their
      closed intervals meet on the time line, whatever their date strings. */
  predicate Overlap(a: Appointment, b: Appointment)
  {
    && a.contactId == b.contactId
    && Active(a) && Active(b)
    && a.fromDateTime <= b.toDateTime
    && b.fromDateTime <= a.toDateTime
  }

  predicate NoOverlap(docs: seq<Appointment>)
  {
    forall a, b :: a in docs && b in docs && a != b ==> !Overlap(a, b)
  }

  /** A store without overlaps on the time line has no double booking per
      date string either. */
  lemma NoOverlapHasNoDoubleBooking(docs: seq<Appointment>)
    requires NoOverlap(docs)
    ensures NoDoubleBooking(docs)
  {
  }

  /** With the corrected aggregate, adding the new active record keeps the
      store free of overlaps exactly when the aggregate finds nothing. */
  lemma InsertKeepsNoOverlap(docs: seq<Appointment>, c: Candidate, r: Appointment)
    requires WellOrdered(docs) && NoOverlap(docs)
    requires c.start <= c.end
    requires r !in docs && Active(r)
    requires r.contactId == c.contactId
    requires r.fromDateTime == c.start && r.toDateTime == c.end
    ensures NoOverlap(docs + [r]) <==> |BlockingAt(docs, c)| == 0
  {
    if |BlockingAt(docs, c)| == 0 {
      forall a, b | a in docs + [r] && b in docs + [r] && a != b ensures !Overlap(a, b) {
        if a == r {
          assert b in docs;
          var i :| 0 <= i < |docs| && docs[i] == b;
          assert !BlocksAt(docs[i], c);
        } else if b == r {
          assert a in docs;
          var i :| 0 <= i < |docs| && docs[i] == a;
          assert !BlocksAt(docs[i], c);
        }
      }
    } else {
      var a := BlockingAt(docs, c)[0];
      assert a in BlockingAt(docs, c);
      var i :| 0 <= i < |docs| && docs[i] == a;
      assert Overlap(a, r);
      assert a in docs + [r] && r in docs + [r];
    }
  }
}
