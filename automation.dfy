// fdgsdfasdfd.js triggerContactAutomation: which automations of an
// organisation react to an event, and the loop that starts one state-machine
// execution per automation with a usable ARN.

module Automation {

  import opened Common
  import opened Payloads
  import Text

  /** One blueprint step; event holds its data.event flags. */
  datatype BlueprintEntry = BlueprintEntry(event: map<string, bool>)

  /** An automation document. arn may be missing (None). */
  datatype AutomationDef = AutomationDef(
    id: Id,
    organizationId: Id,
    name: string,
    arn: Option<string>,
    blueprint: seq<BlueprintEntry>,
    deletedAt: Option<string>)

  /** A $group output row, keyed by the automation's _id: the $first name,
      arn and deletedAt. */
  datatype Matched = Matched(name: string, arn: Option<string>, deletedAt: Option<string>)

  function Project(d: AutomationDef): Matched
  {
    Matched(d.name, d.arn, d.deletedAt)
  }

  /** First $match: the organisation, and an arn other than "". A missing arn
      passes. */
  predicate InScope(d: AutomationDef, orgId: Id)
  {
    d.organizationId == orgId && d.arn != Some("")
  }

  function ScopeStage(defs: seq<AutomationDef>, orgId: Id): (r: seq<AutomationDef>)
    ensures forall d :: d in r <==> d in defs && InScope(d, orgId)
  {
    if defs == [] then []
    else if InScope(defs[0], orgId) then [defs[0]] + ScopeStage(defs[1..], orgId)
    else ScopeStage(defs[1..], orgId)
  }

  /** One $unwind row: the document with a single blueprint step. */
  datatype Unwound = Unwound(def: AutomationDef, entry: BlueprintEntry)

  function UnwindOne(d: AutomationDef): (r: seq<Unwound>)
    ensures |r| == |d.blueprint|
    ensures forall k :: 0 <= k < |r| ==> r[k] == Unwound(d, d.blueprint[k])
  {
    seq(|d.blueprint|, k requires 0 <= k < |d.blueprint| => Unwound(d, d.blueprint[k]))
  }

  /** $unwind of blueprint: a document with an empty blueprint yields no row. */
  function UnwindBlueprint(defs: seq<AutomationDef>): seq<Unwound>
  {
    if defs == [] then [] else UnwindOne(defs[0]) + UnwindBlueprint(defs[1..])
  }

  /** Second $match: the step's flag for the event is true. */
  predicate Flagged(e: BlueprintEntry, op: string)
  {
    op in e.event && e.event[op]
  }

  function EventStage(rows: seq<Unwound>, op: string): (r: seq<Unwound>)
    ensures forall u :: u in r <==> u in rows && Flagged(u.entry, op)
  {
    if rows == [] then []
    else if Flagged(rows[0].entry, op) then [rows[0]] + EventStage(rows[1..], op)
    else EventStage(rows[1..], op)
  }

  /** $group by _id with $first: the earliest row of an id gives its fields. */
  function GroupById(rows: seq<Unwound>): map<Id, Matched>
  {
    if rows == [] then map[]
    else GroupById(rows[1..])[rows[0].def.id := Project(rows[0].def)]
  }

  /** The aggregate's result. */
  function Matches(defs: seq<AutomationDef>, orgId: Id, op: string): map<Id, Matched>
  {
    GroupById(EventStage(UnwindBlueprint(ScopeStage(defs, orgId)), op))
  }

  /** An automation document reacts to the event: it is in scope and one of its
      steps carries the event's flag. */
  predicate Qualifies(d: AutomationDef, orgId: Id, op: string)
  {
    InScope(d, orgId) && exists k :: 0 <= k < |d.blueprint| && Flagged(d.blueprint[k], op)
  }

  /** The reference result: folding the documents from the last to the first,
      each qualifying one sets its id, so the earliest qualifying document of
      an id wins. */
  function Reacting(defs: seq<AutomationDef>, orgId: Id, op: string): map<Id, Matched>
  {
    if defs == [] then map[]
    else if Qualifies(defs[0], orgId, op) then Reacting(defs[1..], orgId, op)[defs[0].id := Project(defs[0])]
    else Reacting(defs[1..], orgId, op)
  }

  lemma {:induction false} UnwindConcat(a: seq<AutomationDef>, b: seq<AutomationDef>)
    ensures UnwindBlueprint(a + b) == UnwindBlueprint(a) + UnwindBlueprint(b)
  {
    if a == [] {
      assert a + b == b;
    } else {
      assert (a + b)[0] == a[0] && (a + b)[1..] == a[1..] + b;
      UnwindConcat(a[1..], b);
      calc {
        UnwindBlueprint(a + b);
        UnwindOne(a[0]) + UnwindBlueprint(a[1..] + b);
        UnwindOne(a[0]) + (UnwindBlueprint(a[1..]) + UnwindBlueprint(b));
        (UnwindOne(a[0]) + UnwindBlueprint(a[1..])) + UnwindBlueprint(b);
      }
    }
  }

  lemma {:induction false} EventConcat(a: seq<Unwound>, b: seq<Unwound>, op: string)
    ensures EventStage(a + b, op) == EventStage(a, op) + EventStage(b, op)
  {
    if a == [] {
      assert a + b == b;
    } else {
      assert (a + b)[0] == a[0] && (a + b)[1..] == a[1..] + b;
      EventConcat(a[1..], b, op);
      if Flagged(a[0].entry, op) {
        assert EventStage(a + b, op) == [a[0]] + (EventStage(a[1..], op) + EventStage(b, op));
      }
    }
  }

  /** Grouping a concatenation: the rows of the first part win. */
  lemma {:induction false} GroupConcat(a: seq<Unwound>, b: seq<Unwound>)
    ensures GroupById(a + b) == GroupById(b) + GroupById(a)
  {
    if a == [] {
      assert a + b == b;
    } else {
      assert (a + b)[0] == a[0] && (a + b)[1..] == a[1..] + b;
      GroupConcat(a[1..], b);
      assert GroupById(a + b) == (GroupById(b) + GroupById(a[1..]))[a[0].def.id := Project(a[0].def)];
    }
  }

  /** Rows of a single document group into that one id. */
  lemma {:induction false} GroupOneDef(rows: seq<Unwound>, d: AutomationDef)
    requires forall u :: u in rows ==> u.def == d
    ensures rows == [] ==> GroupById(rows) == map[]
    ensures rows != [] ==> GroupById(rows) == map[d.id := Project(d)]
  {
    if rows != [] {
      assert rows[0] in rows;
      GroupOneDef(rows[1..], d);
    }
  }

  /** The pipeline's contribution of one document. */
  lemma MatchesOne(d: AutomationDef, orgId: Id, op: string)
    ensures Matches([d], orgId, op) == Contribution(d, orgId, op)
  {
    var scoped := ScopeStage([d], orgId);
    if InScope(d, orgId) {
      assert [d][0] == d && [d][1..] == [];
      assert ScopeStage([], orgId) == [];
      assert scoped == [d] + [];
      assert [d] + [] == [d];
      assert UnwindBlueprint(scoped) == UnwindOne(d) + UnwindBlueprint([]);
      var rows := EventStage(UnwindOne(d), op);
      assert UnwindOne(d) + [] == UnwindOne(d);
      GroupOneDef(rows, d);
      if Qualifies(d, orgId, op) {
        var k :| 0 <= k < |d.blueprint| && Flagged(d.blueprint[k], op);
        assert UnwindOne(d)[k] in rows;
      }
    } else {
      assert [d][0] == d && [d][1..] == [];
      assert ScopeStage([], orgId) == [];
      assert scoped == [];
      assert EventStage(UnwindBlueprint([]), op) == [];
    }
  }

  lemma ScopeCons(defs: seq<AutomationDef>, orgId: Id)
    requires defs != []
    ensures ScopeStage(defs, orgId) == ScopeStage([defs[0]], orgId) + ScopeStage(defs[1..], orgId)
  {
    assert [defs[0]][0] == defs[0] && [defs[0]][1..] == [];
    assert ScopeStage([], orgId) == [];
  }

  /** The pipeline over a document followed by others: the earlier document's
      group wins. */
  lemma MatchesCons(defs: seq<AutomationDef>, orgId: Id, op: string)
    requires defs != []
    ensures Matches(defs, orgId, op) == Matches(defs[1..], orgId, op) + Matches([defs[0]], orgId, op)
  {
    var s1, s2 := ScopeStage([defs[0]], orgId), ScopeStage(defs[1..], orgId);
    ScopeCons(defs, orgId);
    UnwindConcat(s1, s2);
    EventConcat(UnwindBlueprint(s1), UnwindBlueprint(s2), op);
    GroupConcat(EventStage(UnwindBlueprint(s1), op), EventStage(UnwindBlueprint(s2), op));
  }

  /** What one more document contributes to the reference result. */
  function Contribution(d: AutomationDef, orgId: Id, op: string): map<Id, Matched>
  {
    if Qualifies(d, orgId, op) then map[d.id := Project(d)] else map[]
  }

  lemma ReactingCons(defs: seq<AutomationDef>, orgId: Id, op: string)
    requires defs != []
    ensures Reacting(defs, orgId, op) == Reacting(defs[1..], orgId, op) + Contribution(defs[0], orgId, op)
  {
    var m := Reacting(defs[1..], orgId, op);
    if Qualifies(defs[0], orgId, op) {
      assert m + map[defs[0].id := Project(defs[0])] == m[defs[0].id := Project(defs[0])];
    } else {
      assert m + map[] == m;
    }
  }

  /** The aggregate computes the reference result. */
  lemma {:induction false} MatchesAreReacting(defs: seq<AutomationDef>, orgId: Id, op: string)
    ensures Matches(defs, orgId, op) == Reacting(defs, orgId, op)
  {
    if defs != [] {
      MatchesCons(defs, orgId, op);
      MatchesOne(defs[0], orgId, op);
      MatchesAreReacting(defs[1..], orgId, op);
      ReactingCons(defs, orgId, op);
    }
  }

  lemma {:induction false} ReactingRule(defs: seq<AutomationDef>, orgId: Id, op: string)
    ensures forall id :: id in Reacting(defs, orgId, op) <==>
      exists i :: 0 <= i < |defs| && defs[i].id == id && Qualifies(defs[i], orgId, op)
    ensures forall id :: id in Reacting(defs, orgId, op) ==>
      exists i :: && 0 <= i < |defs| && defs[i].id == id && Qualifies(defs[i], orgId, op)
                  && Reacting(defs, orgId, op)[id] == Project(defs[i])
                  && forall j :: 0 <= j < i && defs[j].id == id ==> !Qualifies(defs[j], orgId, op)
  {
    if defs != [] {
      var rest := defs[1..];
      ReactingRule(rest, orgId, op);
      var m := Reacting(defs, orgId, op);
      forall id | exists i :: 0 <= i < |defs| && defs[i].id == id && Qualifies(defs[i], orgId, op)
        ensures id in m
      {
        var i :| 0 <= i < |defs| && defs[i].id == id && Qualifies(defs[i], orgId, op);
        if i > 0 {
          assert rest[i - 1] == defs[i];
          assert id in Reacting(rest, orgId, op);
        }
      }
      forall id | id in m
        ensures exists i :: && 0 <= i < |defs| && defs[i].id == id && Qualifies(defs[i], orgId, op)
                            && m[id] == Project(defs[i])
                            && forall j :: 0 <= j < i && defs[j].id == id ==> !Qualifies(defs[j], orgId, op)
      {
        if Qualifies(defs[0], orgId, op) && defs[0].id == id {
          assert m[id] == Project(defs[0]);
        } else {
          var i :| && 0 <= i < |rest| && rest[i].id == id && Qualifies(rest[i], orgId, op)
                   && Reacting(rest, orgId, op)[id] == Project(rest[i])
                   && forall j :: 0 <= j < i && rest[j].id == id ==> !Qualifies(rest[j], orgId, op);
          assert defs[i + 1] == rest[i];
          forall j | 0 <= j < i + 1 && defs[j].id == id ensures !Qualifies(defs[j], orgId, op) {
            if j > 0 {
              assert defs[j] == rest[j - 1];
            }
          }
        }
      }
    }
  }

  /** What the aggregate returns: an id is present exactly when some document
      with that id is in the organisation's scope and has a step flagged for
      the event, and its fields are those of the first such document. Soft
      deletion (deletedAt) plays no part. */
  lemma MatchRule(defs: seq<AutomationDef>, orgId: Id, op: string)
    ensures forall id :: id in Matches(defs, orgId, op) <==>
      exists i :: 0 <= i < |defs| && defs[i].id == id && Qualifies(defs[i], orgId, op)
    ensures forall id :: id in Matches(defs, orgId, op) ==>
      exists i :: && 0 <= i < |defs| && defs[i].id == id && Qualifies(defs[i], orgId, op)
                  && Matches(defs, orgId, op)[id] == Project(defs[i])
                  && forall j :: 0 <= j < i && defs[j].id == id ==> !Qualifies(defs[j], orgId, op)
  {
    MatchesAreReacting(defs, orgId, op);
    ReactingRule(defs, orgId, op);
  }

  /** A match whose arn is missing passed the first stage; the loop skips it.
      A present arn is never "". */
  lemma MatchedArnNotEmpty(defs: seq<AutomationDef>, orgId: Id, op: string, id: Id)
    requires id in Matches(defs, orgId, op)
    ensures Matches(defs, orgId, op)[id].arn != Some("")
  {
    MatchRule(defs, orgId, op);
  }

  /** The loop's if (automations[a].arn). */
  predicate Usable(m: Matched)
  {
    m.arn.Some? && m.arn.value != ""
  }

  /** The execution ARN: the first "stateMachine" of the machine ARN becomes
      "execution", then ":" and the execution name. */
  function ExecArn(arn: string, execName: string): (r: string)
    ensures Text.IndexOf(arn, "stateMachine").None? ==> r == arn + ":" + execName
    ensures Text.IndexOf(arn, "stateMachine").Some? ==>
      var k := Text.IndexOf(arn, "stateMachine").value;
      r == arn[..k] + "execution" + arn[k + 12..] + ":" + execName
  {
    Text.ReplaceFirst(arn, "stateMachine", "execution") + ":" + execName
  }

  /** The fields the loop writes on the contact before starting an execution. */
  function Stamp(p: Payload, orgId: Id, automationId: Id, execArn: string): (r: Payload)
    ensures r.orgId == Some(orgId) && r.automationId == Some(automationId) && r.execArn == Some(execArn)
    ensures r.(orgId := p.orgId, automationId := p.automationId, execArn := p.execArn) == p
  {
    p.(orgId := Some(orgId), automationId := Some(automationId), execArn := Some(execArn))
  }

  /** The AWS helpers. uniqueName(n) is the name the n-th createUniqueName call
      returns, or None when it throws; start tells whether startExecution of
      (machine ARN, payload, execution name) returns rather than throws. */
  datatype Aws = Aws(uniqueName: nat -> Option<string>, start: (string, Payload, string) -> bool)

  /** One startExecution call. */
  datatype Execution = Execution(arn: string, payload: Payload, execName: string)

  /** The i-th call went to a usable match, with the name of the i-th
      createUniqueName, and carries the contact stamped for that automation. */
  predicate SentTo(e: Execution, i: nat, orgId: Id, contact: Payload, m: map<Id, Matched>, aws: Aws)
  {
    && e.payload.automationId.Some?
    && var id := e.payload.automationId.value;
    && id in m && Usable(m[id]) && e.arn == m[id].arn.value
    && aws.uniqueName(i) == Some(e.execName)
    && e.payload == Stamp(contact, orgId, id, ExecArn(e.arn, e.execName))
  }

  /** startExecution of the call returned. */
  predicate Started(e: Execution, aws: Aws)
  {
    aws.start(e.arn, e.payload, e.execName)
  }

  /** Some call went to automation id. */
  predicate Covered(calls: seq<Execution>, id: Id)
  {
    exists i :: 0 <= i < |calls| && calls[i].payload.automationId == Some(id)
  }

  /** The loop stopped at an exception: the last startExecution threw, or the
      next createUniqueName did. */
  predicate Aborted(calls: seq<Execution>, aws: Aws)
  {
    || (calls != [] && !Started(calls[|calls| - 1], aws))
    || aws.uniqueName(|calls|).None?
  }

  /** Every call went to a usable match with the right name and payload, no
      automation was started twice, and every call but the last returned. */
  predicate WellSent(calls: seq<Execution>, orgId: Id, contact: Payload, m: map<Id, Matched>, aws: Aws)
  {
    && (forall i :: 0 <= i < |calls| ==> SentTo(calls[i], i, orgId, contact, m, aws))
    && (forall i, j :: 0 <= i < j < |calls| ==> calls[i].payload.automationId != calls[j].payload.automationId)
    && (forall i :: 0 <= i < |calls| - 1 ==> Started(calls[i], aws))
  }

  /** What the dispatch loop does with the aggregate's result m: the calls are
      well sent, and either every usable match got its call, all of which
      returned, or the loop stopped at the first exception. */
  predicate Dispatched(calls: seq<Execution>, orgId: Id, contact: Payload, m: map<Id, Matched>, aws: Aws)
  {
    && WellSent(calls, orgId, contact, m, aws)
    && (|| ((forall id :: id in m && Usable(m[id]) ==> Covered(calls, id))
            && forall i :: 0 <= i < |calls| ==> Started(calls[i], aws))
        || Aborted(calls, aws))
  }

  /** The outcome of triggerContactAutomation for the automation collection db;
      None stands for a failing helper.init, selectCollection or aggregate,
      after which nothing is started. */
  predicate TriggerOutcome(calls: seq<Execution>, orgId: Id, contact: Payload, op: string,
                           db: Option<seq<AutomationDef>>, aws: Aws)
  {
    && (db.None? ==> calls == [])
    && (db.Some? ==> Dispatched(calls, orgId, contact, Matches(db.value, orgId, op), aws))
  }

  /** The state of the dispatch loop with the matches in remaining still to
      visit. */
  predicate LoopState(calls: seq<Execution>, orgId: Id, contact: Payload, m: map<Id, Matched>, aws: Aws,
                      remaining: set<Id>, failed: bool)
  {
    && remaining <= m.Keys
    && WellSent(calls, orgId, contact, m, aws)
    && (forall i :: 0 <= i < |calls| ==> calls[i].payload.automationId.value !in remaining)
    && (!failed ==> forall i :: 0 <= i < |calls| ==> Started(calls[i], aws))
    && (!failed ==> forall id :: id in m && id !in remaining && Usable(m[id]) ==> Covered(calls, id))
    && (failed ==> Aborted(calls, aws))
  }

  /** Visiting a match without a usable arn changes nothing else. */
  lemma SkipStep(calls: seq<Execution>, orgId: Id, contact: Payload, m: map<Id, Matched>, aws: Aws,
                 remaining: set<Id>, id: Id)
    requires LoopState(calls, orgId, contact, m, aws, remaining, false)
    requires id in remaining && !Usable(m[id])
    ensures LoopState(calls, orgId, contact, m, aws, remaining - {id}, false)
  {
  }

  /** createUniqueName threw: the loop ends with the calls made so far. */
  lemma NameFailStep(calls: seq<Execution>, orgId: Id, contact: Payload, m: map<Id, Matched>, aws: Aws,
                     remaining: set<Id>, id: Id)
    requires LoopState(calls, orgId, contact, m, aws, remaining, false)
    requires id in remaining && aws.uniqueName(|calls|).None?
    ensures LoopState(calls, orgId, contact, m, aws, remaining - {id}, true)
  {
  }

  /** A call to the visited match extends the state; the loop goes on exactly
      when the call returned. */
  lemma {:induction false} CallStep(calls: seq<Execution>, e: Execution, orgId: Id, contact: Payload, m: map<Id, Matched>,
                                    aws: Aws, remaining: set<Id>, id: Id)
    requires LoopState(calls, orgId, contact, m, aws, remaining, false)
    requires id in remaining && Usable(m[id])
    requires e.payload.automationId == Some(id) && SentTo(e, |calls|, orgId, contact, m, aws)
    ensures LoopState(calls + [e], orgId, contact, m, aws, remaining - {id}, !Started(e, aws))
  {
    var c := calls + [e];
    assert forall i :: 0 <= i < |calls| ==> c[i] == calls[i];
    assert c[|calls|] == e;
    forall i, j | 0 <= i < j < |c| ensures c[i].payload.automationId != c[j].payload.automationId {
      if j == |calls| {
        assert calls[i].payload.automationId.value !in remaining;
      }
    }
    if Started(e, aws) {
      forall k | k in m && k !in remaining - {id} && Usable(m[k]) ensures Covered(c, k) {
        if k == id {
          assert c[|calls|].payload.automationId == Some(k);
        } else {
          var i :| 0 <= i < |calls| && calls[i].payload.automationId == Some(k);
          assert c[i].payload.automationId == Some(k);
        }
      }
    }
  }

  function CalledIds(calls: seq<Execution>): set<Id>
    requires forall i :: 0 <= i < |calls| ==> calls[i].payload.automationId.Some?
  {
    if calls == [] then {} else {calls[0].payload.automationId.value} + CalledIds(calls[1..])
  }

  lemma {:induction false} CalledIdsCount(calls: seq<Execution>, m: map<Id, Matched>)
    requires forall i :: 0 <= i < |calls| ==> calls[i].payload.automationId.Some? && calls[i].payload.automationId.value in m
    requires forall i, j :: 0 <= i < j < |calls| ==> calls[i].payload.automationId != calls[j].payload.automationId
    ensures CalledIds(calls) <= m.Keys && |CalledIds(calls)| == |calls|
  {
    if calls != [] {
      var rest := calls[1..];
      assert forall i :: 0 <= i < |rest| ==> rest[i] == calls[i + 1];
      CalledIdsCount(rest, m);
      assert calls[0].payload.automationId.value !in CalledIds(rest) by {
        CalledIdsMember(rest, calls[0].payload.automationId.value);
      }
    }
  }

  lemma {:induction false} CalledIdsMember(calls: seq<Execution>, id: Id)
    requires forall i :: 0 <= i < |calls| ==> calls[i].payload.automationId.Some?
    ensures id in CalledIds(calls) ==> exists i :: 0 <= i < |calls| && calls[i].payload.automationId == Some(id)
  {
    if calls != [] && id in CalledIds(calls) && calls[0].payload.automationId != Some(id) {
      var rest := calls[1..];
      CalledIdsMember(rest, id);
      var i :| 0 <= i < |rest| && rest[i].payload.automationId == Some(id);
      assert calls[i + 1] == rest[i];
    }
  }

  lemma SubsetCard(a: set<Id>, b: set<Id>)
    requires a <= b
    ensures |a| <= |b|
  {
    if a != {} {
      var x :| x in a;
      SubsetCard(a - {x}, b - {x});
    }
  }

  /** At most one execution per match: the loop never starts more executions
      than the aggregate returned automations, so no match means no call. */
  lemma AtMostOneCallPerMatch(calls: seq<Execution>, orgId: Id, contact: Payload, m: map<Id, Matched>, aws: Aws)
    requires WellSent(calls, orgId, contact, m, aws)
    ensures |calls| <= |m|
    ensures m == map[] ==> calls == []
  {
    CalledIdsCount(calls, m);
    SubsetCard(CalledIds(calls), m.Keys);
    assert |m.Keys| == |m|;
  }

  /** The executions started for the event op. Every exception is caught and
      the function reports true. The order of the aggregate's output is not
      fixed, so the loop takes the matches in an unspecified order. */
  method TriggerContactAutomation(orgId: Id, contact: Payload, op: string, db: Option<seq<AutomationDef>>, aws: Aws)
    returns (done: bool, calls: seq<Execution>)
    ensures done
    ensures TriggerOutcome(calls, orgId, contact, op, db, aws)
  {
    done := true;
    calls := [];
    if db.None? {
      return;
    }
    var automations := Matches(db.value, orgId, op);
    var remaining := automations.Keys;
    var p := contact;
    var failed := false;
    while remaining != {} && !failed
      invariant LoopState(calls, orgId, contact, automations, aws, remaining, failed)
      invariant p.(orgId := contact.orgId, automationId := contact.automationId, execArn := contact.execArn) == contact
      decreases |remaining|
    {
      var id :| id in remaining;
      var a := automations[id];
      if Usable(a) {
        p := p.(orgId := Some(orgId), automationId := Some(id));
        var execName := aws.uniqueName(|calls|);
        if execName.None? {
          NameFailStep(calls, orgId, contact, automations, aws, remaining, id);
          failed := true;
        } else {
          p := p.(execArn := Some(ExecArn(a.arn.value, execName.value)));
          var e := Execution(a.arn.value, p, execName.value);
          assert p == Stamp(contact, orgId, id, ExecArn(a.arn.value, execName.value));
          CallStep(calls, e, orgId, contact, automations, aws, remaining, id);
          calls := calls + [e];
          if !aws.start(a.arn.value, p, execName.value) {
            failed := true;
          }
        }
      } else {
        SkipStep(calls, orgId, contact, automations, aws, remaining, id);
      }
      remaining := remaining - {id};
    }
  }
}
