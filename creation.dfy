// The pure parts of abc.js handlerCreate: the fail-fast validation chain, the
// candidate range handed to the overlap query, and the shape of the inserted
// document.

module Creation {

  import opened Common
  import opened Appointments
  import Conflict

  /** What moment makes of the request strings. date gives the day number
      (days since the epoch, organisation-local) of a string it accepts under
      'MM/DD/YYYY'; time gives the minute of the day of a string it accepts
      under 'hh:mm A'. A combined "date time" string is taken to parse to that
      day at that minute. */
  datatype Formats = Formats(date: string -> Option<int>, time: string -> Option<int>)

  /** The request body. */
  datatype CreateRequest = CreateRequest(
    contactId: Id,
    date: string,
    fromTime: string,
    toTime: string,
    tags: seq<Id>,
    agenda: string)

  datatype ValidationError = InvalidDateTime | PastDate | ToBeforeFrom | SameTimes

  function Message(e: ValidationError): string
  {
    match e
    case InvalidDateTime => "Please provide a valid date and time."
    case PastDate => "Please provide a future date."
    case ToBeforeFrom => "To time should be greater than from time."
    case SameTimes => "To time and from time should not be same."
  }

  /** The parsed request: day number and the two minutes of the day. */
  datatype Slot = Slot(day: int, from: int, to: int)

  const MsPerDay := 86_400_000
  const MinutesPerDay := 1440

  /** Midnight of the day, in milliseconds, as moment(date, 'MM/DD/YYYY') has it. */
  function DayStartMs(day: int): int
  {
    day * MsPerDay
  }

  /** fromDateTime / toDateTime of the record, in minutes. */
  function StartOf(s: Slot): int
  {
    s.day * MinutesPerDay + s.from
  }

  function EndOf(s: Slot): int
  {
    s.day * MinutesPerDay + s.to
  }

  predicate Parses(req: CreateRequest, fmt: Formats)
  {
    fmt.date(req.date).Some? && fmt.time(req.toTime).Some? && fmt.time(req.fromTime).Some?
  }

  /** The four checks in source order, the first failure winning. now is the
      current instant in milliseconds. The past-date check compares now with
      midnight of the requested day, so a request for the current day is
      already in the past. The zero-length check compares the raw strings. */
  function Validate(req: CreateRequest, fmt: Formats, now: int): (r: Result<Slot, ValidationError>)
    ensures r == Failure(InvalidDateTime) <==> !Parses(req, fmt)
    ensures r == Failure(PastDate) ==>
      Parses(req, fmt) && now > DayStartMs(fmt.date(req.date).value)
    ensures r == Failure(ToBeforeFrom) ==>
      Parses(req, fmt) && now <= DayStartMs(fmt.date(req.date).value)
      && fmt.time(req.toTime).value < fmt.time(req.fromTime).value
    ensures r == Failure(SameTimes) ==>
      Parses(req, fmt) && now <= DayStartMs(fmt.date(req.date).value)
      && fmt.time(req.toTime).value >= fmt.time(req.fromTime).value
      && req.toTime == req.fromTime
    ensures r.Success? ==>
      && Parses(req, fmt)
      && r.value == Slot(fmt.date(req.date).value, fmt.time(req.fromTime).value, fmt.time(req.toTime).value)
      && now <= DayStartMs(r.value.day)
      && r.value.from <= r.value.to
      && req.fromTime != req.toTime
    ensures req.fromTime == req.toTime ==> r.Failure?
  {
    if !Parses(req, fmt) then Failure(InvalidDateTime)
    else
      var day, from, to := fmt.date(req.date).value, fmt.time(req.fromTime).value, fmt.time(req.toTime).value;
      if now > DayStartMs(day) then Failure(PastDate)
      else if to < from then Failure(ToBeforeFrom)
      else if req.toTime == req.fromTime then Failure(SameTimes)
      else Success(Slot(day, from, to))
  }

  /** The range the overlap query is built from. */
  function CandidateOf(req: CreateRequest, s: Slot): (c: Conflict.Candidate)
    ensures s.from <= s.to ==> c.start <= c.end
    ensures c.contactId == req.contactId && c.date == req.date
  {
    Conflict.Candidate(req.contactId, req.date, StartOf(s), EndOf(s))
  }

  /** Two spellings of one time, "09:00 AM" and "9:00 AM", both accepted by
      moment's forgiving 'hh:mm A' parse, pass the raw-string check: the
      request is accepted with a zero-length range, which the check on the
      parsed times refuses. */
  lemma ZeroLengthPassesWithTwoSpellings()
    ensures
      var fmt := Formats(
        (s: string) => if s == "01/10/2030" then Some(21924) else None,
        (s: string) => if s == "09:00 AM" || s == "9:00 AM" then Some(540) else None);
      var req := CreateRequest("c1", "01/10/2030", "09:00 AM", "9:00 AM", [], "");
      var r := Validate(req, fmt, 0);
      r.Success? && StartOf(r.value) == EndOf(r.value) && ValidateParsed(req, fmt, 0) == Failure(SameTimes)
  {
    var fmt := Formats(
      (s: string) => if s == "01/10/2030" then Some(21924) else None,
      (s: string) => if s == "09:00 AM" || s == "9:00 AM" then Some(540) else None);
    var req := CreateRequest("c1", "01/10/2030", "09:00 AM", "9:00 AM", [], "");
    assert req.fromTime != req.toTime by { assert req.fromTime[0] != req.toTime[0]; }
    assert Parses(req, fmt);
  }

  /** The chain with the zero-length check on the parsed times instead of
      the raw strings, so that two spellings of one time are refused too. */
  function ValidateParsed(req: CreateRequest, fmt: Formats, now: int): (r: Result<Slot, ValidationError>)
    ensures r.Success? ==> Parses(req, fmt) && StartOf(r.value) < EndOf(r.value)
    ensures r.Success? ==> now <= DayStartMs(r.value.day)
  {
    if !Parses(req, fmt) then Failure(InvalidDateTime)
    else
      var day, from, to := fmt.date(req.date).value, fmt.time(req.fromTime).value, fmt.time(req.toTime).value;
      if now > DayStartMs(day) then Failure(PastDate)
      else if to < from then Failure(ToBeforeFrom)
      else if to == from then Failure(SameTimes)
      else Success(Slot(day, from, to))
  }

  /** The two chains decide alike whenever equal strings are exactly the
      equal parsed times; they differ only on a respelled time. */
  lemma ParsedAgreesUnlessRespelled(req: CreateRequest, fmt: Formats, now: int)
    requires Parses(req, fmt) ==> (req.fromTime == req.toTime <==> fmt.time(req.fromTime) == fmt.time(req.toTime))
    ensures ValidateParsed(req, fmt, now) == Validate(req, fmt, now)
  {
  }

  /** A contact holds 09:00-10:00 AM on "01/10/2030". A request for 09:00-10:00
      AM on "1/10/2030", the same day to moment's forgiving 'MM/DD/YYYY'
      parse, is valid and the overlap aggregate, comparing the raw date
      strings, finds nothing, so the second record is stored and the two
      overlap on the time line; the corrected aggregate finds the first. */
  lemma RespelledDateDoubleBooks()
    ensures
      var fmt := Formats(
        (s: string) => if s == "01/10/2030" || s == "1/10/2030" then Some(21924) else None,
        (s: string) => if s == "09:00 AM" then Some(540) else if s == "10:00 AM" then Some(600) else None);
      var held := CreateRequest("c1", "01/10/2030", "09:00 AM", "10:00 AM", [], "");
      var req := CreateRequest("c1", "1/10/2030", "09:00 AM", "10:00 AM", [], "");
      var r := Validate(req, fmt, 0);
      && r.Success?
      && var stored := NewRecord("a1", held, r.value, [], "u1", "o1", 0);
         var added := NewRecord("a2", req, r.value, [], "u1", "o1", 0);
         var c := CandidateOf(req, r.value);
         && Validate(held, fmt, 0) == r
         && Conflict.Blocking([stored], c) == []
         && Conflict.BlockingAt([stored], c) == [stored]
         && Conflict.Overlap(stored, added)
         && !Conflict.NoOverlap([stored, added])
  {
    var fmt := Formats(
      (s: string) => if s == "01/10/2030" || s == "1/10/2030" then Some(21924) else None,
      (s: string) => if s == "09:00 AM" then Some(540) else if s == "10:00 AM" then Some(600) else None);
    var held := CreateRequest("c1", "01/10/2030", "09:00 AM", "10:00 AM", [], "");
    var req := CreateRequest("c1", "1/10/2030", "09:00 AM", "10:00 AM", [], "");
    assert req.fromTime != req.toTime by { assert req.fromTime[1] != req.toTime[1]; }
    assert held.date != req.date by { assert |held.date| != |req.date|; }
    assert Parses(req, fmt) && Parses(held, fmt);
    var r := Validate(req, fmt, 0);
    var stored := NewRecord("a1", held, r.value, [], "u1", "o1", 0);
    var added := NewRecord("a2", req, r.value, [], "u1", "o1", 0);
    assert stored != added by { assert stored.id != added.id by { assert stored.id[1] != added.id[1]; } }
    assert stored in [stored, added] && added in [stored, added];
    assert Conflict.Overlap(stored, added);
  }

  /** The tags loop: one makeId per request id, in request order. Identifiers
      are modelled as their hex strings, so makeId is the identity. */
  method CopyTagIds(ids: seq<Id>) returns (tags: seq<Id>)
    ensures |tags| == |ids|
    ensures forall i :: 0 <= i < |ids| ==> tags[i] == ids[i]
  {
    tags := [];
    if |ids| > 0 {
      var i := 0;
      while i < |ids|
        invariant 0 <= i <= |ids|
        invariant |tags| == i
        invariant forall k :: 0 <= k < i ==> tags[k] == ids[k]
      {
        tags := tags + [ids[i]];
        i := i + 1;
      }
    }
  }

  /** The document handed to insertOne. createdAt and updatedAt are the
      current instant truncated to whole seconds. */
  function NewRecord(id: Id, req: CreateRequest, s: Slot, tags: seq<Id>, actor: Id, orgId: Id, now: int): (a: Appointment)
    ensures a.id == id && a.status == Scheduled && Active(a) && a.history == []
    ensures a.createdBy == actor && a.updatedBy == a.createdBy
    ensures a.createdAt == now / 1000 && a.updatedAt == a.createdAt
    ensures a.contactId == req.contactId && a.orgId == orgId && a.date == req.date
    ensures a.fromTime == req.fromTime && a.toTime == req.toTime && a.agenda == req.agenda
    ensures a.fromDateTime == CandidateOf(req, s).start && a.toDateTime == CandidateOf(req, s).end
    ensures s.from <= s.to ==> a.fromDateTime <= a.toDateTime
    ensures a.tags == tags && a.note == None
  {
    Appointment(
      id := id,
      agenda := req.agenda,
      contactId := req.contactId,
      orgId := orgId,
      date := req.date,
      fromTime := req.fromTime,
      toTime := req.toTime,
      fromDateTime := StartOf(s),
      toDateTime := EndOf(s),
      tags := tags,
      history := [],
      status := Scheduled,
      createdBy := actor,
      updatedBy := actor,
      createdAt := now / 1000,
      updatedAt := now / 1000,
      note := None)
  }
}
