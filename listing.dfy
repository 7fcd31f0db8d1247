// abc.js handlerList: the aggregation pipeline as an in-memory transform over
// the collection, then the page and its pagination block.

module Listing {

  import opened Common
  import opened Appointments

  /** $ifNull(part, ""). */
  function NamePart(p: Option<string>): string
  {
    if p.Some? then p.value else ""
  }

  /** The creator's name: $concat of firstName, " ", lastName without $ifNull,
      which is null as soon as one part is missing. */
  function CreatorName(u: User): Option<string>
  {
    if u.firstName.Some? && u.lastName.Some? then Some(u.firstName.value + " " + u.lastName.value)
    else None
  }

  /** rescheduledByName: $concat over $ifNull parts. An entry whose user does
      not resolve gets " ". */
  function HistoryName(users: map<Id, User>, e: HistoryEntry): string
  {
    if e.rescheduledBy.Some? && e.rescheduledBy.value in users then
      var u := users[e.rescheduledBy.value];
      NamePart(u.firstName) + " " + NamePart(u.lastName)
    else " "
  }

  /** Stages 1-2: the two $match stages. */
  function OwnedBy(docs: seq<Appointment>, contactId: Id, orgId: Id): (r: seq<Appointment>)
    ensures forall a :: a in r <==> a in docs && a.contactId == contactId && a.orgId == orgId
    ensures |r| <= |docs|
  {
    if docs == [] then []
    else if docs[0].contactId == contactId && docs[0].orgId == orgId then [docs[0]] + OwnedBy(docs[1..], contactId, orgId)
    else OwnedBy(docs[1..], contactId, orgId)
  }

  /** $lookup of tags: the tag documents, in their collection's order, whose
      _id is among the appointment's tags. */
  function TagsOf(tagColl: seq<Tag>, ids: seq<Id>): (r: seq<Tag>)
    ensures forall t :: t in r <==> t in tagColl && t.id in ids
  {
    if tagColl == [] then []
    else if tagColl[0].id in ids then [tagColl[0]] + TagsOf(tagColl[1..], ids)
    else TagsOf(tagColl[1..], ids)
  }

  /** An appointment after the creator lookup, the name and tag stages. */
  datatype Joined = Joined(doc: Appointment, creator: Option<string>, tagNames: seq<Tag>)

  /** Stages 3-6: $lookup users on createdBy, then $unwind without
      preserveNullAndEmptyArrays, which drops the appointment whose creator does
      not resolve; the creator's name; the tag lookup. */
  function JoinStage(docs: seq<Appointment>, users: map<Id, User>, tagColl: seq<Tag>): (r: seq<Joined>)
    ensures forall j :: j in r ==> j.doc in docs && j.doc.createdBy in users
    ensures forall a :: a in docs && a.createdBy in users ==> exists j :: j in r && j.doc == a
    ensures forall i :: 0 <= i < |r| ==>
      r[i].creator == CreatorName(users[r[i].doc.createdBy]) && r[i].tagNames == TagsOf(tagColl, r[i].doc.tags)
  {
    if docs == [] then []
    else
      var rest := JoinStage(docs[1..], users, tagColl);
      if docs[0].createdBy in users then
        var j := Joined(docs[0], CreatorName(users[docs[0].createdBy]), TagsOf(tagColl, docs[0].tags));
        assert forall a :: a in docs && a != docs[0] ==> a in docs[1..];
        [j] + rest
      else
        assert forall a :: a in docs && a != docs[0] ==> a in docs[1..];
        rest
  }

  /** One history row after the rescheduledBy lookup and name stage. The row
      $unwind keeps for an appointment without history has no entry, and the
      name stage still gives it " ". */
  datatype HistoryItem = HistoryItem(entry: Option<HistoryEntry>, rescheduledByName: string)

  /** The history rows of one appointment, in history order. */
  function ItemsOf(j: Joined, users: map<Id, User>): (r: seq<HistoryItem>)
    ensures |r| >= 1
  {
    var h := j.doc.history;
    if |h| == 0 then [HistoryItem(None, " ")]
    else seq(|h|, i requires 0 <= i < |h| => HistoryItem(Some(h[i]), HistoryName(users, h[i])))
  }

  datatype Row = Row(j: Joined, item: HistoryItem)

  function RowsOf(j: Joined, users: map<Id, User>): (r: seq<Row>)
    ensures |r| == |ItemsOf(j, users)|
    ensures forall i :: 0 <= i < |r| ==> r[i] == Row(j, ItemsOf(j, users)[i])
  {
    var items := ItemsOf(j, users);
    seq(|items|, i requires 0 <= i < |items| => Row(j, items[i]))
  }

  /** Stages 7-11: rescheduleCount, $unwind history preserving empty arrays,
      the rescheduledBy lookup, the name, the second $unwind. */
  function Flatten(js: seq<Joined>, users: map<Id, User>): seq<Row>
  {
    if js == [] then [] else Flatten(js[..|js| - 1], users) + RowsOf(js[|js| - 1], users)
  }

  /** A $group accumulator: the first row's appointment ($first) and the
      pushed history rows ($push). */
  datatype Bucket = Bucket(first: Joined, pushed: seq<HistoryItem>)

  function FindBucket(acc: seq<Bucket>, id: Id): (r: Option<nat>)
    ensures r.Some? ==> r.value < |acc| && acc[r.value].first.doc.id == id
    ensures r.Some? ==> forall k :: 0 <= k < r.value ==> acc[k].first.doc.id != id
    ensures r.None? ==> forall k :: 0 <= k < |acc| ==> acc[k].first.doc.id != id
  {
    if acc == [] then None
    else if acc[0].first.doc.id == id then Some(0)
    else match FindBucket(acc[1..], id)
      case None => None
      case Some(k) => Some(k + 1)
  }

  function AddRow(acc: seq<Bucket>, r: Row): seq<Bucket>
  {
    match FindBucket(acc, r.j.doc.id)
    case None => acc + [Bucket(r.j, [r.item])]
    case Some(k) => acc[k := Bucket(acc[k].first, acc[k].pushed + [r.item])]
  }

  /** Stage 12: $group by _id, buckets in order of first appearance. */
  function Regroup(acc: seq<Bucket>, rows: seq<Row>): seq<Bucket>
    decreases |rows|
  {
    if rows == [] then acc else Regroup(AddRow(acc, rows[0]), rows[1..])
  }

  /** A listed appointment: the fields the $group keeps. */
  datatype Listed = Listed(
    id: Id,
    agenda: string,
    contactId: Id,
    orgId: Id,
    tags: seq<Id>,
    date: string,
    toTime: string,
    fromTime: string,
    status: string,
    createdBy: Option<string>,
    tagNames: seq<Tag>,
    createdAt: int,
    rescheduleCount: nat,
    note: Option<string>,
    history: Option<seq<HistoryItem>>)

  /** The group's output document and stage 13: history is removed when
      rescheduleCount is 0. */
  function Project(b: Bucket): Listed
  {
    var d := b.first.doc;
    Listed(d.id, d.agenda, d.contactId, d.orgId, d.tags, d.date, d.toTime, d.fromTime, d.status,
           b.first.creator, b.first.tagNames, d.createdAt, |d.history|, d.note,
           if |d.history| > 0 then Some(b.pushed) else None)
  }

  function ProjectAll(bs: seq<Bucket>): (r: seq<Listed>)
    ensures |r| == |bs|
    ensures forall i :: 0 <= i < |bs| ==> r[i] == Project(bs[i])
  {
    if bs == [] then [] else [Project(bs[0])] + ProjectAll(bs[1..])
  }

  /** The pipeline up to the sort. */
  function Enriched(docs: seq<Appointment>, users: map<Id, User>, tagColl: seq<Tag>, contactId: Id, orgId: Id): seq<Listed>
  {
    var js := JoinStage(OwnedBy(docs, contactId, orgId), users, tagColl);
    ProjectAll(Regroup([], Flatten(js, users)))
  }

  /** What the pipeline should give for one appointment. */
  function ExpectedItem(j: Joined, users: map<Id, User>): Listed
  {
    Project(Bucket(j, ItemsOf(j, users)))
  }

  predicate SortedDesc(s: seq<Listed>)
  {
    forall i, k :: 0 <= i < k < |s| ==> s[i].createdAt >= s[k].createdAt
  }

  lemma SortedCons(y: Listed, t: seq<Listed>)
    requires SortedDesc(t)
    requires t != [] ==> y.createdAt >= t[0].createdAt
    ensures SortedDesc([y] + t)
  {
    var r := [y] + t;
    forall i, k | 0 <= i < k < |r| ensures r[i].createdAt >= r[k].createdAt {
      assert r[k] == t[k - 1];
      if i == 0 {
        assert t[0].createdAt >= t[k - 1].createdAt || k == 1;
      } else {
        assert r[i] == t[i - 1];
      }
    }
  }

  /** Places x before the first item that is not newer. */
  function Insert(x: Listed, s: seq<Listed>): seq<Listed>
  {
    if s == [] then [x]
    else if x.createdAt >= s[0].createdAt then [x] + s
    else [s[0]] + Insert(x, s[1..])
  }

  lemma {:induction false} InsertPermutes(x: Listed, s: seq<Listed>)
    ensures multiset(Insert(x, s)) == multiset(s) + multiset{x}
    ensures |Insert(x, s)| == |s| + 1
  {
    if s != [] && x.createdAt < s[0].createdAt {
      InsertPermutes(x, s[1..]);
      assert s == [s[0]] + s[1..];
      assert multiset([s[0]] + Insert(x, s[1..])) == multiset{s[0]} + multiset(Insert(x, s[1..]));
    }
  }

  lemma {:induction false} InsertKeepsOrder(x: Listed, s: seq<Listed>)
    requires SortedDesc(s)
    ensures SortedDesc(Insert(x, s))
    ensures Insert(x, s) != []
    ensures Insert(x, s)[0] == x || (s != [] && Insert(x, s)[0] == s[0])
  {
    if s == [] {
    } else if x.createdAt >= s[0].createdAt {
      SortedCons(x, s);
    } else {
      assert SortedDesc(s[1..]) by {
        forall i, k | 0 <= i < k < |s[1..]| ensures s[1..][i].createdAt >= s[1..][k].createdAt {
          assert s[1..][i] == s[i + 1] && s[1..][k] == s[k + 1];
        }
      }
      var t := Insert(x, s[1..]);
      InsertKeepsOrder(x, s[1..]);
      assert t[0].createdAt <= s[0].createdAt by {
        if t[0] != x {
          assert t[0] == s[1];
        }
      }
      SortedCons(s[0], t);
    }
  }

  lemma MultisetCons(s: seq<Listed>)
    requires s != []
    ensures multiset(s) == multiset(s[1..]) + multiset{s[0]}
  {
    assert s == [s[0]] + s[1..];
  }

  /** Stage 14: $sort by createdAt descending. Ties keep their input order. */
  function SortDesc(s: seq<Listed>): (r: seq<Listed>)
    ensures SortedDesc(r)
    ensures multiset(r) == multiset(s)
    ensures |r| == |s|
  {
    if s == [] then []
    else
      var t := SortDesc(s[1..]);
      InsertKeepsOrder(s[0], t);
      InsertPermutes(s[0], t);
      MultisetCons(s);
      Insert(s[0], t)
  }

  /** The full sorted result both facets start from. */
  function Ranked(docs: seq<Appointment>, users: map<Id, User>, tagColl: seq<Tag>, contactId: Id, orgId: Id): seq<Listed>
  {
    SortDesc(Enriched(docs, users, tagColl, contactId, orgId))
  }

  function Min(a: int, b: int): int
  {
    if a <= b then a else b
  }

  /** $skip then $limit. */
  function PageOf(s: seq<Listed>, skip: nat, limit: nat): (r: seq<Listed>)
    ensures |r| <= limit
    ensures |r| == if skip >= |s| then 0 else Min(limit, |s| - skip)
    ensures forall i :: 0 <= i < |r| ==> r[i] == s[skip + i]
  {
    if skip >= |s| then [] else s[skip..Min(skip + limit, |s|)]
  }

  /** Math.ceil(count / limit) for a positive limit. */
  function CeilDiv(count: nat, limit: int): (r: nat)
    requires limit > 0
    ensures r * limit >= count
    ensures r > 0 ==> (r - 1) * limit < count
    ensures count == 0 <==> r == 0
  {
    var q := (count + limit - 1) / limit;
    assert q * limit <= count + limit - 1 < q * limit + limit;
    q
  }

  datatype Pagination = Pagination(count: nat, currentPage: int, totalPages: nat)

  datatype ListPage = ListPage(appointments: seq<Listed>, pagination: Pagination)

  /** The aggregate refuses a negative $skip and a $limit that is not positive. */
  datatype ListError = InvalidSkip | InvalidLimit

  /** pageId defaults to 1 and skip = (page - 1) * limit; the aggregate
      refuses a negative $skip, then a $limit that is not positive. */
  function Paging(pageId: Option<int>, limit: int): (r: Result<(int, nat), ListError>)
    ensures var page := if pageId.Some? then pageId.value else 1;
      && (r == Failure(InvalidSkip) <==> (page - 1) * limit < 0)
      && (r == Failure(InvalidLimit) <==> (page - 1) * limit >= 0 && limit <= 0)
      && (r.Success? ==> r.value.0 == page && page >= 1 && limit >= 1 && r.value.1 == (page - 1) * limit)
  {
    var page := if pageId.Some? then pageId.value else 1;
    var skip := (page - 1) * limit;
    if skip < 0 then Failure(InvalidSkip)
    else if limit <= 0 then Failure(InvalidLimit)
    else
      NegativeTimesPositive(page - 1, limit);
      Success((page, skip))
  }

  lemma NegativeTimesPositive(a: int, b: int)
    requires b > 0
    ensures a * b >= 0 <==> a >= 0
  {
  }

  /** The handler: the page and the count are two independent facets over the
      sorted result. */
  function List(docs: seq<Appointment>, users: map<Id, User>, tagColl: seq<Tag>,
                contactId: Id, orgId: Id, pageId: Option<int>, limit: int): Result<ListPage, ListError>
  {
    Paginate(Ranked(docs, users, tagColl, contactId, orgId), pageId, limit)
  }

  /** The $facet stage and the response built from it. */
  function Paginate(ranked: seq<Listed>, pageId: Option<int>, limit: int): Result<ListPage, ListError>
  {
    match Paging(pageId, limit)
    case Failure(e) => Failure(e)
    case Success((page, skip)) =>
      Success(ListPage(PageOf(ranked, skip, limit), Pagination(|ranked|, page, CeilDiv(|ranked|, limit))))
  }

  // ---------------------------------------------------------------------------
  // The unwind / regroup round trip

  predicate UniqueJoined(js: seq<Joined>)
  {
    forall i, k :: 0 <= i < k < |js| ==> js[i].doc.id != js[k].doc.id
  }

  /** One bucket per appointment, holding exactly its history rows. */
  function Buckets(js: seq<Joined>, users: map<Id, User>): (r: seq<Bucket>)
    ensures |r| == |js|
    ensures forall i :: 0 <= i < |js| ==> r[i] == Bucket(js[i], ItemsOf(js[i], users))
  {
    if js == [] then [] else Buckets(js[..|js| - 1], users) + [Bucket(js[|js| - 1], ItemsOf(js[|js| - 1], users))]
  }

  function ItemsOfRows(rows: seq<Row>): (r: seq<HistoryItem>)
    ensures |r| == |rows|
    ensures forall i :: 0 <= i < |rows| ==> r[i] == rows[i].item
  {
    if rows == [] then [] else [rows[0].item] + ItemsOfRows(rows[1..])
  }

  lemma {:induction false} RegroupConcat(acc: seq<Bucket>, r1: seq<Row>, r2: seq<Row>)
    ensures Regroup(acc, r1 + r2) == Regroup(Regroup(acc, r1), r2)
    decreases |r1|
  {
    if r1 == [] {
      assert r1 + r2 == r2;
    } else {
      var w := r1 + r2;
      assert w[0] == r1[0];
      assert w[1..] == r1[1..] + r2;
      assert Regroup(acc, w) == Regroup(AddRow(acc, r1[0]), r1[1..] + r2);
      RegroupConcat(AddRow(acc, r1[0]), r1[1..], r2);
    }
  }

  lemma {:induction false} FindLastBucket(pre: seq<Bucket>, b: Bucket)
    requires forall k :: 0 <= k < |pre| ==> pre[k].first.doc.id != b.first.doc.id
    ensures FindBucket(pre + [b], b.first.doc.id) == Some(|pre|)
  {
    if pre != [] {
      assert (pre + [b])[1..] == pre[1..] + [b];
      FindLastBucket(pre[1..], b);
    }
  }

  /** Rows of one appointment land in its bucket, which is the last one. */
  lemma {:induction false} AppendRows(pre: seq<Bucket>, b: Bucket, rows: seq<Row>)
    requires forall k :: 0 <= k < |pre| ==> pre[k].first.doc.id != b.first.doc.id
    requires forall i :: 0 <= i < |rows| ==> rows[i].j.doc.id == b.first.doc.id
    ensures Regroup(pre + [b], rows) == pre + [Bucket(b.first, b.pushed + ItemsOfRows(rows))]
    decreases |rows|
  {
    if rows == [] {
      assert b.pushed + [] == b.pushed;
    } else {
      FindLastBucket(pre, b);
      var b' := Bucket(b.first, b.pushed + [rows[0].item]);
      assert AddRow(pre + [b], rows[0]) == pre + [b'];
      AppendRows(pre, b', rows[1..]);
      assert ItemsOfRows(rows) == [rows[0].item] + ItemsOfRows(rows[1..]);
      assert b.pushed + [rows[0].item] + ItemsOfRows(rows[1..]) == b.pushed + ItemsOfRows(rows);
    }
  }

  lemma {:induction false} NewBucket(pre: seq<Bucket>, j: Joined, users: map<Id, User>)
    requires forall k :: 0 <= k < |pre| ==> pre[k].first.doc.id != j.doc.id
    ensures Regroup(pre, RowsOf(j, users)) == pre + [Bucket(j, ItemsOf(j, users))]
  {
    var rows := RowsOf(j, users);
    assert AddRow(pre, rows[0]) == pre + [Bucket(j, [rows[0].item])];
    AppendRows(pre, Bucket(j, [rows[0].item]), rows[1..]);
    assert [rows[0].item] + ItemsOfRows(rows[1..]) == ItemsOfRows(rows);
    assert ItemsOfRows(rows) == ItemsOf(j, users);
  }

  /** $unwind followed by $group neither drops nor duplicates an appointment,
      including one whose history is empty. */
  lemma {:induction false} RegroupRecovers(js: seq<Joined>, users: map<Id, User>)
    requires UniqueJoined(js)
    ensures Regroup([], Flatten(js, users)) == Buckets(js, users)
    decreases |js|
  {
    if js != [] {
      var p := js[..|js| - 1];
      var j := js[|js| - 1];
      assert UniqueJoined(p);
      RegroupRecovers(p, users);
      RegroupConcat([], Flatten(p, users), RowsOf(j, users));
      NewBucket(Buckets(p, users), j, users);
    }
  }

  lemma {:induction false} JoinStageUnique(docs: seq<Appointment>, users: map<Id, User>, tagColl: seq<Tag>)
    requires UniqueIds(docs)
    ensures UniqueJoined(JoinStage(docs, users, tagColl))
  {
    if docs != [] {
      assert UniqueIds(docs[1..]) by {
        forall i, k | 0 <= i < k < |docs[1..]| ensures docs[1..][i].id != docs[1..][k].id {
          assert docs[1..][i] == docs[i + 1] && docs[1..][k] == docs[k + 1];
        }
      }
      JoinStageUnique(docs[1..], users, tagColl);
      var rest := JoinStage(docs[1..], users, tagColl);
      forall k | 0 <= k < |rest| ensures rest[k].doc.id != docs[0].id {
        assert rest[k] in rest;
        var m :| 0 <= m < |docs[1..]| && docs[1..][m] == rest[k].doc;
        assert docs[m + 1] == rest[k].doc;
      }
    }
  }

  lemma {:induction false} OwnedByUnique(docs: seq<Appointment>, contactId: Id, orgId: Id)
    requires UniqueIds(docs)
    ensures UniqueIds(OwnedBy(docs, contactId, orgId))
  {
    if docs != [] {
      assert UniqueIds(docs[1..]) by {
        forall i, k | 0 <= i < k < |docs[1..]| ensures docs[1..][i].id != docs[1..][k].id {
          assert docs[1..][i] == docs[i + 1] && docs[1..][k] == docs[k + 1];
        }
      }
      OwnedByUnique(docs[1..], contactId, orgId);
      var rest := OwnedBy(docs[1..], contactId, orgId);
      forall k | 0 <= k < |rest| ensures rest[k].id != docs[0].id {
        assert rest[k] in rest;
        var m :| 0 <= m < |docs[1..]| && docs[1..][m] == rest[k];
        assert docs[m + 1] == rest[k];
      }
    }
  }

  /** On a collection with unique _id, the pipeline up to the sort gives one
      item per appointment of the contact and organisation whose creator
      resolves, in collection order, each the expected item. */
  lemma EnrichedIsExpected(docs: seq<Appointment>, users: map<Id, User>, tagColl: seq<Tag>, contactId: Id, orgId: Id)
    requires UniqueIds(docs)
    ensures var js := JoinStage(OwnedBy(docs, contactId, orgId), users, tagColl);
      var e := Enriched(docs, users, tagColl, contactId, orgId);
      |e| == |js| && forall i :: 0 <= i < |js| ==> e[i] == ExpectedItem(js[i], users)
  {
    OwnedByUnique(docs, contactId, orgId);
    JoinStageUnique(OwnedBy(docs, contactId, orgId), users, tagColl);
    RegroupRecovers(JoinStage(OwnedBy(docs, contactId, orgId), users, tagColl), users);
  }

  /** The history field of a listed item: absent exactly when there were no
      reschedules, otherwise one row per reschedule, in order, each named. */
  lemma ExpectedHistory(j: Joined, users: map<Id, User>)
    ensures var x := ExpectedItem(j, users);
      && x.rescheduleCount == |j.doc.history|
      && (x.history.None? <==> x.rescheduleCount == 0)
      && (x.history.Some? ==>
            && |x.history.value| == x.rescheduleCount
            && forall i :: 0 <= i < |j.doc.history| ==>
                 x.history.value[i] == HistoryItem(Some(j.doc.history[i]), HistoryName(users, j.doc.history[i])))
  {
  }

  // ---------------------------------------------------------------------------
  // What a listing holds

  lemma SameMembers(a: seq<Listed>, b: seq<Listed>)
    requires multiset(a) == multiset(b)
    ensures forall x :: x in a <==> x in b
  {
    forall x ensures x in a <==> x in b {
      assert x in a <==> x in multiset(a);
      assert x in b <==> x in multiset(b);
    }
  }

  /** Every item of the full result is the expected item of an appointment of
      the contact and organisation whose creator resolves. */
  lemma RankedItemsExpected(docs: seq<Appointment>, users: map<Id, User>, tagColl: seq<Tag>,
                            contactId: Id, orgId: Id)
    requires UniqueIds(docs)
    ensures var js := JoinStage(OwnedBy(docs, contactId, orgId), users, tagColl);
      var full := Ranked(docs, users, tagColl, contactId, orgId);
      && |full| == |js|
      && forall x :: x in full ==>
           && x.contactId == contactId && x.orgId == orgId
           && exists i :: 0 <= i < |js| && x == ExpectedItem(js[i], users)
  {
    var js := JoinStage(OwnedBy(docs, contactId, orgId), users, tagColl);
    var e := Enriched(docs, users, tagColl, contactId, orgId);
    var full := Ranked(docs, users, tagColl, contactId, orgId);
    EnrichedIsExpected(docs, users, tagColl, contactId, orgId);
    SameMembers(full, e);
    forall x | x in full
      ensures x.contactId == contactId && x.orgId == orgId
      ensures exists i :: 0 <= i < |js| && x == ExpectedItem(js[i], users)
    {
      assert x in multiset(full);
      assert x in e;
      var i :| 0 <= i < |e| && e[i] == x;
      assert js[i] in js;
      assert js[i].doc in OwnedBy(docs, contactId, orgId);
    }
  }

  /** A successful listing: the page is the slice at (page - 1) * limit of the
      full result sorted by createdAt descending and holds at most limit
      items; count is the size of the full result, whatever the page, and
      totalPages is the ceiling of count / limit. */
  lemma ListingPage(docs: seq<Appointment>, users: map<Id, User>, tagColl: seq<Tag>,
                    contactId: Id, orgId: Id, pageId: Option<int>, limit: int)
    requires UniqueIds(docs)
    ensures var r := List(docs, users, tagColl, contactId, orgId, pageId, limit);
      var full := Ranked(docs, users, tagColl, contactId, orgId);
      r.Success? ==>
        var items := r.value.appointments;
        var p := r.value.pagination;
        && p.count == |JoinStage(OwnedBy(docs, contactId, orgId), users, tagColl)|
        && p.count == |full|
        && SortedDesc(full)
        && |items| <= limit
        && p.totalPages * limit >= p.count
        && (p.totalPages > 0 ==> (p.totalPages - 1) * limit < p.count)
  {
    var r := List(docs, users, tagColl, contactId, orgId, pageId, limit);
    if r.Success? {
      var pg := Paging(pageId, limit);
      assert pg.Success?;
      var page, skip := pg.value.0, pg.value.1;
      var full := Ranked(docs, users, tagColl, contactId, orgId);
      assert r.value == ListPage(PageOf(full, skip, limit), Pagination(|full|, page, CeilDiv(|full|, limit)));
      RankedItemsExpected(docs, users, tagColl, contactId, orgId);
    }
  }

  /** The page is the slice of the full result that starts at
      (page - 1) * limit. */
  lemma PageIsSlice(full: seq<Listed>, pageId: Option<int>, limit: int)
    ensures var r := Paginate(full, pageId, limit);
      r.Success? ==>
        var skip := (r.value.pagination.currentPage - 1) * limit;
        forall i :: 0 <= i < |r.value.appointments| ==> skip + i < |full| && r.value.appointments[i] == full[skip + i]
  {
    var r := Paginate(full, pageId, limit);
    if r.Success? {
      var pg := Paging(pageId, limit);
      var page, skip := pg.value.0, pg.value.1;
      assert r.value.pagination.currentPage == page;
      assert (r.value.pagination.currentPage - 1) * limit == skip;
      var items := PageOf(full, skip, limit);
      assert r.value.appointments == items;
      assert forall i :: 0 <= i < |items| ==> skip + i < |full| && items[i] == full[skip + i];
    }
  }

  /** Every listed item belongs to the contact and the organisation and is the
      expected item of one of its appointments whose creator resolves. */
  lemma ListedItemsBelong(docs: seq<Appointment>, users: map<Id, User>, tagColl: seq<Tag>,
                          contactId: Id, orgId: Id, pageId: Option<int>, limit: int)
    requires UniqueIds(docs)
    ensures var r := List(docs, users, tagColl, contactId, orgId, pageId, limit);
      var js := JoinStage(OwnedBy(docs, contactId, orgId), users, tagColl);
      r.Success? ==> forall x :: x in r.value.appointments ==>
        && x.contactId == contactId && x.orgId == orgId
        && exists i :: 0 <= i < |js| && x == ExpectedItem(js[i], users)
  {
    var r := List(docs, users, tagColl, contactId, orgId, pageId, limit);
    if r.Success? {
      RankedItemsExpected(docs, users, tagColl, contactId, orgId);
      var full := Ranked(docs, users, tagColl, contactId, orgId);
      forall x | x in r.value.appointments ensures x in full {
        var i :| 0 <= i < |r.value.appointments| && r.value.appointments[i] == x;
      }
    }
  }

  /** Every appointment of the contact and organisation whose creator resolves
      is in the full result, and the sort neither adds nor drops an item. */
  lemma ListingComplete(docs: seq<Appointment>, users: map<Id, User>, tagColl: seq<Tag>,
                        contactId: Id, orgId: Id, a: Appointment)
    requires UniqueIds(docs)
    requires a in docs && a.contactId == contactId && a.orgId == orgId && a.createdBy in users
    ensures var full := Ranked(docs, users, tagColl, contactId, orgId);
      && (exists x :: x in full && x.id == a.id && x.createdAt == a.createdAt && x.rescheduleCount == |a.history|)
      && multiset(full) == multiset(Enriched(docs, users, tagColl, contactId, orgId))
  {
    var js := JoinStage(OwnedBy(docs, contactId, orgId), users, tagColl);
    var e := Enriched(docs, users, tagColl, contactId, orgId);
    EnrichedIsExpected(docs, users, tagColl, contactId, orgId);
    assert a in OwnedBy(docs, contactId, orgId);
    var j :| j in js && j.doc == a;
    var i :| 0 <= i < |js| && js[i] == j;
    SameMembers(Ranked(docs, users, tagColl, contactId, orgId), e);
    assert e[i] in e;
  }

  lemma {:induction false} NoneOwned(docs: seq<Appointment>, contactId: Id, orgId: Id)
    requires forall a :: a in docs ==> a.contactId != contactId || a.orgId != orgId
    ensures OwnedBy(docs, contactId, orgId) == []
  {
    if docs != [] {
      assert forall a :: a in docs[1..] ==> a in docs;
      NoneOwned(docs[1..], contactId, orgId);
    }
  }

  /** No appointment to list: an empty page and no pages. */
  lemma EmptyListing(docs: seq<Appointment>, users: map<Id, User>, tagColl: seq<Tag>,
                     contactId: Id, orgId: Id, pageId: Option<int>, limit: int)
    requires forall a :: a in docs ==> a.contactId != contactId || a.orgId != orgId
    ensures var r := List(docs, users, tagColl, contactId, orgId, pageId, limit);
      r.Success? ==> r.value.appointments == [] && r.value.pagination.count == 0 && r.value.pagination.totalPages == 0
  {
    NoneOwned(docs, contactId, orgId);
    assert JoinStage([], users, tagColl) == [];
    assert Flatten([], users) == [];
  }
}
