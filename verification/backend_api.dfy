/**
 * The server's request handlers and its background worker, over the
 * `BackendDb` model. A handler's HTTP error is a `HttpError` result; the
 * worker's endless loop is one `WorkerPass` per iteration, at the time `now`.
 */
module BackendApi {
  import opened Wrappers
  import opened Sorting
  import opened BackendDb
  import Json
  import Sequences

  /** `{"ok": True}` and `{"ok": True, "queued": True}`. */
  datatype Ack = OkAck | QueuedAck

  datatype Response<T> = Ok(value: T) | HttpError(status: int, detail: string)

  // ---------------------------------------------------------------------------
  // The background worker

  /** One "send" record per lead id, in order. */
  function SendsFor(sequenceId: int, leadIds: seq<int>, now: string): (r: seq<LogEntry>)
    ensures |r| == |leadIds|
    ensures forall k :: 0 <= k < |r| ==> r[k] == LogEntry(now, Sent(sequenceId, leadIds[k]))
  {
    if leadIds == [] then [] else [LogEntry(now, Sent(sequenceId, leadIds[0]))] + SendsFor(sequenceId, leadIds[1..], now)
  }

  /** The records one pass appends: for each due sequence in turn, one per
      linked lead. */
  function SendLog(due: seq<int>, links: seq<LinkRow>, now: string): seq<LogEntry> {
    if due == [] then []
    else
      var id := due[|due| - 1];
      SendLog(due[..|due| - 1], links, now) + SendsFor(id, LeadIdsOf(links, id), now)
  }

  /** Every record of a pass is a "send" at `now` for a due sequence and a lead
      linked to it. */
  lemma {:induction false} SendLogEntries(due: seq<int>, links: seq<LinkRow>, now: string)
    ensures forall e :: e in SendLog(due, links, now) ==>
              e.ts == now && e.event.Sent? && e.event.sequenceId in due
              && LinkRow(e.event.sequenceId, e.event.leadId) in links
  {
    if due != [] {
      var init := due[..|due| - 1];
      var id := due[|due| - 1];
      SendLogEntries(init, links, now);
      var sends := SendsFor(id, LeadIdsOf(links, id), now);
      forall e | e in SendLog(due, links, now)
        ensures e.ts == now && e.event.Sent? && e.event.sequenceId in due
                && LinkRow(e.event.sequenceId, e.event.leadId) in links
      {
        if e in SendLog(init, links, now) {
          assert e.event.sequenceId in init;
        } else {
          assert e in sends;
          var k :| 0 <= k < |sends| && sends[k] == e;
          assert LeadIdsOf(links, id)[k] in LeadIdsOf(links, id);
        }
      }
    }
  }

  /** The rows after `mark_sequence_sent` on each id in turn. */
  function MarkAll(seqs: map<int, SequenceRow>, due: seq<int>, now: string): map<int, SequenceRow> {
    if due == [] then seqs
    else
      var m := MarkAll(seqs, due[..|due| - 1], now);
      var id := due[|due| - 1];
      if id in m then m[id := m[id].(status := SentStatus, sentAt := Some(now))] else m
  }

  /** Marking keeps the set of sequences, marks exactly the listed ones and
      leaves the others as they were. */
  lemma {:induction false} MarkAllEffect(seqs: map<int, SequenceRow>, due: seq<int>, now: string)
    ensures MarkAll(seqs, due, now).Keys == seqs.Keys
    ensures forall id :: id in seqs && id in due ==>
              MarkAll(seqs, due, now)[id] == seqs[id].(status := SentStatus, sentAt := Some(now))
    ensures forall id :: id in seqs && id !in due ==> MarkAll(seqs, due, now)[id] == seqs[id]
  {
    if due != [] {
      var init := due[..|due| - 1];
      MarkAllEffect(seqs, init, now);
      assert forall id :: id in due <==> id in init || id == due[|due| - 1];
    }
  }

  /** After a pass at `now` no sequence is due at `now` any more, and the only
      rows that changed are the ones that were due, which are now "sent". */
  lemma PassLeavesNothingDue(seqs: map<int, SequenceRow>, now: string, next: int)
    requires forall id :: id in seqs ==> 1 <= id < next
    ensures var after := MarkAll(seqs, DueIds(seqs, now, 1, next), now);
      && after.Keys == seqs.Keys
      && (forall id :: id in after ==> !IsDue(after[id], now))
      && (forall id :: id in after && after[id] != seqs[id] ==> IsDue(seqs[id], now) && after[id].status == SentStatus)
  {
    var due := DueIds(seqs, now, 1, next);
    DueIdsShape(seqs, now, 1, next);
    MarkAllEffect(seqs, due, now);
  }

  /** The inner loop of a pass: one "send" record per lead id. */
  method LogSends(db: Database, id: int, leadIds: seq<int>, now: string)
    modifies db`log
    ensures db.log == old(db.log) + SendsFor(id, leadIds, now)
  {
    var j := 0;
    while j < |leadIds|
      invariant 0 <= j <= |leadIds|
      invariant db.log == old(db.log) + SendsFor(id, leadIds[..j], now)
    {
      db.LogActivity(now, Sent(id, leadIds[j]));
      assert SendsFor(id, leadIds[..j + 1], now) == SendsFor(id, leadIds[..j], now) + [LogEntry(now, Sent(id, leadIds[j]))];
      j := j + 1;
    }
    assert leadIds[..j] == leadIds;
  }

  /** One more due sequence adds its records at the end. */
  lemma SendLogSnoc(due: seq<int>, i: int, links: seq<LinkRow>, now: string)
    requires 0 <= i < |due|
    ensures SendLog(due[..i + 1], links, now) == SendLog(due[..i], links, now) + SendsFor(due[i], LeadIdsOf(links, due[i]), now)
  {
    assert due[..i + 1][..i] == due[..i];
  }

  /** Marking one more due sequence extends `MarkAll` to one more id. */
  lemma MarkAllStep(seqs: map<int, SequenceRow>, due: seq<int>, i: int, now: string,
                    before: map<int, SequenceRow>, after: map<int, SequenceRow>)
    requires 0 <= i < |due| && before == MarkAll(seqs, due[..i], now)
    requires after == (if due[i] in before
                       then before[due[i] := before[due[i]].(status := SentStatus, sentAt := Some(now))]
                       else before)
    ensures after == MarkAll(seqs, due[..i + 1], now)
  {
    assert due[..i + 1][..i] == due[..i];
  }

  /** Logging the sends of one more due sequence extends `SendLog` to one more id. */
  lemma SendLogStep(base: seq<LogEntry>, due: seq<int>, i: int, links: seq<LinkRow>, now: string,
                    before: seq<LogEntry>, after: seq<LogEntry>)
    requires 0 <= i < |due| && before == base + SendLog(due[..i], links, now)
    requires after == before + SendsFor(due[i], LeadIdsOf(links, due[i]), now)
    ensures after == base + SendLog(due[..i + 1], links, now)
  {
    SendLogSnoc(due, i, links, now);
  }

  /** The body of the worker's `for s in due` loop for one sequence. */
  method SendSequence(db: Database, id: int, now: string)
    requires db.Valid()
    modifies db`sequences, db`log
    ensures db.Valid()
    ensures db.sequences == (if id in old(db.sequences)
                             then old(db.sequences)[id := old(db.sequences)[id].(status := SentStatus, sentAt := Some(now))]
                             else old(db.sequences))
    ensures db.log == old(db.log) + SendsFor(id, LeadIdsOf(db.links, id), now)
  {
    var leadIds := db.GetSequenceLeads(id);
    LogSends(db, id, leadIds, now);
    db.MarkSequenceSent(id, now);
  }

  /** One iteration of `background_worker`: every sequence due at `now`, in
      id order, logs one "send" per linked lead and is then marked sent. */
  method WorkerPass(db: Database, now: string)
    requires db.Valid()
    modifies db`sequences, db`log
    ensures db.Valid()
    ensures var due := old(DueIds(db.sequences, now, 1, db.nextSequenceId));
      db.sequences == MarkAll(old(db.sequences), due, now) && db.log == old(db.log) + SendLog(due, db.links, now)
  {
    var due := db.GetDueSequences(now);
    var i := 0;
    while i < |due|
      invariant 0 <= i <= |due|
      invariant db.Valid()
      invariant db.sequences == MarkAll(old(db.sequences), due[..i], now)
      invariant db.log == old(db.log) + SendLog(due[..i], db.links, now)
    {
      ghost var seqsBefore, logBefore := db.sequences, db.log;
      SendSequence(db, due[i], now);
      MarkAllStep(old(db.sequences), due, i, now, seqsBefore, db.sequences);
      SendLogStep(old(db.log), due, i, db.links, now, logBefore, db.log);
      i := i + 1;
    }
    assert due[..i] == due;
  }

  // ---------------------------------------------------------------------------
  // Lead handlers

  /** `POST /leads`: inserts (or finds the lead with that email) and returns
      its row. The name defaults to "" when missing or empty; a second lead
      with a known email gets the existing row back, unchanged. */
  method CreateLead(db: Database, name: Option<string>, email: string, now: string) returns (r: Response<(int, LeadRow)>)
    requires db.Valid()
    modifies db`leads, db`nextLeadId
    ensures db.Valid()
    ensures r.Ok? && r.value.0 in db.leads && r.value.1 == db.leads[r.value.0] && r.value.1.email == email
    ensures db.nextLeadId == old(db.nextLeadId) + 1
    ensures (exists o :: o in old(db.leads) && old(db.leads)[o].email == email) ==>
              db.leads == old(db.leads) && r.value.0 in old(db.leads)
    ensures (forall o :: o in old(db.leads) ==> old(db.leads)[o].email != email) ==>
              r.value == (old(db.nextLeadId), LeadRow(name.GetOr(""), email, None, None, now))
              && db.leads == old(db.leads)[r.value.0 := r.value.1]
  {
    var id := db.InsertLead(name.GetOr(""), email, now);
    r := Ok((id, db.leads[id]));
  }

  /** `PUT /leads/{id}`: the request always carries an email. 404 when the
      lead is absent or the email belongs to another lead. */
  method EditLead(db: Database, id: int, name: Option<string>, email: string, now: string) returns (r: Response<LeadRow>)
    requires db.Valid()
    modifies db`leads, db`log
    ensures db.Valid()
    ensures r.HttpError? <==> id !in old(db.leads) || old(db.EmailTakenByOther(id, email))
    ensures r.HttpError? ==>
              r == HttpError(404, "lead not found or update failed") && db.leads == old(db.leads) && db.log == old(db.log)
    ensures r.Ok? ==>
              && id in old(db.leads) && db.leads == old(db.leads)[id := r.value]
              && r.value == old(db.leads)[id].(name := name.GetOr(old(db.leads)[id].name), email := email)
              && db.log == old(db.log) + [LogEntry(now, LeadUpdated(id))]
  {
    var updated := db.UpdateLead(id, name, Some(email), now);
    if updated.None? {
      return HttpError(404, "lead not found or update failed");
    }
    r := Ok(updated.value);
  }

  /** `DELETE /leads/{id}`: 404 exactly when there was no such lead. */
  method RemoveLead(db: Database, id: int, now: string) returns (r: Response<Ack>)
    requires db.Valid()
    modifies db`leads, db`links, db`log
    ensures db.Valid()
    ensures r == (if id in old(db.leads) then Ok(OkAck) else HttpError(404, "lead not found"))
    ensures db.leads == old(db.leads) - {id} && db.links == LinksWithoutLead(old(db.links), id)
    ensures db.log == if id in old(db.leads) then old(db.log) + [LogEntry(now, LeadDeleted(id))] else old(db.log)
  {
    var ok := db.DeleteLead(id, now);
    if !ok {
      return HttpError(404, "lead not found");
    }
    r := Ok(OkAck);
  }

  /** `POST /leads/{id}/claim`: 404 when the lead is absent or already claimed. */
  method ClaimLead(db: Database, id: int, claimer: string, now: string) returns (r: Response<Ack>)
    requires db.Valid()
    modifies db`leads, db`log
    ensures db.Valid()
    ensures r.Ok? <==> id in old(db.leads) && old(db.leads)[id].claimedBy.None?
    ensures r.Ok? ==> r.value == OkAck && id in db.leads && db.leads[id].claimedBy == Some(claimer)
    ensures r.Ok? ==> db.leads == old(db.leads)[id := old(db.leads)[id].(claimedBy := Some(claimer), claimedAt := Some(now))]
                      && db.log == old(db.log) + [LogEntry(now, LeadClaimed(id, claimer))]
    ensures r.HttpError? ==>
              r == HttpError(404, "lead not found or already claimed") && db.leads == old(db.leads) && db.log == old(db.log)
  {
    var ok := db.ClaimLead(id, claimer, now);
    if !ok {
      return HttpError(404, "lead not found or already claimed");
    }
    r := Ok(OkAck);
  }

  /** Of two claims on an unclaimed lead, the first succeeds and the second
      is refused; the lead keeps the first claimer. */
  method ClaimTwice(db: Database, id: int, first: string, second: string, now: string)
    returns (r1: Response<Ack>, r2: Response<Ack>)
    requires db.Valid() && id in db.leads && db.leads[id].claimedBy.None?
    modifies db`leads, db`log
    ensures r1 == Ok(OkAck) && r2 == HttpError(404, "lead not found or already claimed")
    ensures id in db.leads && db.leads[id].claimedBy == Some(first)
  {
    r1 := ClaimLead(db, id, first, now);
    r2 := ClaimLead(db, id, second, now);
  }

  // ---------------------------------------------------------------------------
  // Sequence handlers

  /** `payload.steps or []`, `payload.lead_ids or []`. */
  function OrEmpty<T>(x: Option<seq<T>>): (r: seq<T>)
    ensures x.Some? ==> r == x.value
    ensures x.None? ==> r == []
  {
    x.GetOr([])
  }

  /** The `for st in steps` loop of `POST /sequences`: one step row per input,
      in order. */
  method AddSteps(db: Database, id: int, inputs: seq<StepIn>)
    requires db.Valid() && id < db.nextSequenceId
    modifies db`steps
    ensures db.Valid()
    ensures db.steps == old(db.steps) + StepRows(id, inputs)
  {
    var i := 0;
    while i < |inputs|
      invariant 0 <= i <= |inputs|
      invariant db.Valid()
      invariant db.steps == old(db.steps) + StepRows(id, inputs[..i])
    {
      var s := inputs[i];
      StepRowsSnoc(id, inputs, i);
      db.AddSequenceStep(id, s.stepIndex, s.delayHours, s.subject, s.body);
      i := i + 1;
    }
    assert inputs[..i] == inputs;
  }

  /** `POST /sequences`: creates the sequence, its steps and its lead links,
      and returns it — with exactly the submitted steps, in `step_index`
      order, and exactly the submitted lead ids. */
  method CreateSequence(db: Database, name: string, scheduledAt: Option<string>, createdBy: Option<string>,
                        steps: Option<seq<StepIn>>, leadIds: Option<seq<int>>, now: string)
    returns (r: Response<SequenceView>)
    requires db.Valid()
    modifies db`sequences, db`nextSequenceId, db`steps, db`links
    ensures db.Valid()
    ensures var id := old(db.nextSequenceId);
      && db.sequences == old(db.sequences)[id := SequenceRow(name, scheduledAt, Scheduled, createdBy, now, None)]
      && db.steps == old(db.steps) + StepRows(id, OrEmpty(steps))
      && db.links == old(db.links) + LinksFor(id, OrEmpty(leadIds))
      && r.Ok? && r.value.id == id && r.value.row == db.sequences[id]
      && SortedBy(r.value.steps, StepOrder())
      && multiset(r.value.steps) == multiset(StepRows(id, OrEmpty(steps)))
      && r.value.leadIds == OrEmpty(leadIds)
  {
    var id := db.CreateSequence(name, scheduledAt, createdBy, now);
    var inputs := OrEmpty(steps);
    AddSteps(db, id, inputs);
    db.AddLeadsToSequence(id, OrEmpty(leadIds));
    // The new id is above every row present before, so only the new rows select.
    StepsOfAppend(old(db.steps), StepRows(id, inputs), id);
    StepsOfOther(old(db.steps), id);
    StepsOfOwn(StepRows(id, inputs), id);
    assert StepsOf(db.steps, id) == StepRows(id, inputs);
    LeadIdsOfAppend(old(db.links), LinksFor(id, OrEmpty(leadIds)), id);
    LeadIdsOfOther(old(db.links), id);
    LeadIdsOfLinksFor(id, OrEmpty(leadIds));
    r := Ok(db.View(id));
  }

  /** `POST /sequences/{id}/add-leads`: 404 for an unknown sequence; otherwise
      one link per id. */
  method AddLeads(db: Database, sequenceId: int, leadIds: seq<int>) returns (r: Response<Ack>)
    requires db.Valid()
    modifies db`links
    ensures db.Valid()
    ensures r == (if sequenceId in old(db.sequences) then Ok(OkAck) else HttpError(404, "sequence not found"))
    ensures r.Ok? ==> db.links == old(db.links) + LinksFor(sequenceId, leadIds)
    ensures r.HttpError? ==> db.links == old(db.links)
  {
    var found := db.GetSequence(sequenceId);
    if found.None? {
      return HttpError(404, "sequence not found");
    }
    db.AddLeadsToSequence(sequenceId, leadIds);
    r := Ok(OkAck);
  }

  /** The shared body of pause and resume: 404 for an unknown sequence;
      otherwise the status is set whatever it was. */
  method SetSequenceStatus(db: Database, sequenceId: int, status: string, now: string) returns (r: Response<Ack>)
    requires db.Valid()
    modifies db`sequences, db`log
    ensures db.Valid()
    ensures r == (if sequenceId in old(db.sequences) then Ok(OkAck) else HttpError(404, "sequence not found"))
    ensures r.Ok? ==> db.sequences == old(db.sequences)[sequenceId := old(db.sequences)[sequenceId].(status := status)]
                      && db.log == old(db.log) + [LogEntry(now, StatusChanged(sequenceId, status))]
    ensures r.HttpError? ==> db.sequences == old(db.sequences) && db.log == old(db.log)
  {
    var ok := db.UpdateSequenceStatus(sequenceId, status, now);
    if !ok {
      return HttpError(404, "sequence not found");
    }
    r := Ok(OkAck);
  }

  /** `POST /sequences/{id}/pause`: a paused sequence is never due. */
  method PauseSequence(db: Database, sequenceId: int, now: string) returns (r: Response<Ack>)
    requires db.Valid()
    modifies db`sequences, db`log
    ensures db.Valid()
    ensures r == (if sequenceId in old(db.sequences) then Ok(OkAck) else HttpError(404, "sequence not found"))
    ensures r.Ok? ==> db.sequences == old(db.sequences)[sequenceId := old(db.sequences)[sequenceId].(status := "paused")]
                      && forall t :: !IsDue(db.sequences[sequenceId], t)
    ensures r.Ok? ==> db.log == old(db.log) + [LogEntry(now, StatusChanged(sequenceId, "paused"))]
    ensures r.HttpError? ==> db.sequences == old(db.sequences) && db.log == old(db.log)
  {
    r := SetSequenceStatus(db, sequenceId, "paused", now);
  }

  /** `POST /sequences/{id}/resume`: sets "scheduled" again — also on a
      sequence already sent, which is then due again once its time has come. */
  method ResumeSequence(db: Database, sequenceId: int, now: string) returns (r: Response<Ack>)
    requires db.Valid()
    modifies db`sequences, db`log
    ensures db.Valid()
    ensures r == (if sequenceId in old(db.sequences) then Ok(OkAck) else HttpError(404, "sequence not found"))
    ensures r.Ok? ==> db.sequences == old(db.sequences)[sequenceId := old(db.sequences)[sequenceId].(status := Scheduled)]
    ensures r.Ok? ==> var at := db.sequences[sequenceId].scheduledAt;
              forall t :: IsDue(db.sequences[sequenceId], t) <==> at.Some? && !Text.StrLess(t, at.value)
    ensures r.Ok? ==> db.log == old(db.log) + [LogEntry(now, StatusChanged(sequenceId, Scheduled))]
    ensures r.HttpError? ==> db.sequences == old(db.sequences) && db.log == old(db.log)
  {
    r := SetSequenceStatus(db, sequenceId, Scheduled, now);
  }

  // ---------------------------------------------------------------------------
  // The webhook

  /** The webhook's guard: `to` and `subject` both present and truthy. */
  predicate Accepts(payload: map<string, Json.Value>) {
    Json.TruthyAt(payload, "to") && Json.TruthyAt(payload, "subject")
  }

  /** `POST /sequence`: 400 unless `to` and `subject` are truthy; otherwise one
      "webhook_send" record of the four fields (absent ones as None). */
  method PostSequenceWebhook(db: Database, payload: map<string, Json.Value>, now: string) returns (r: Response<Ack>)
    modifies db`log
    ensures !Accepts(payload) ==> r == HttpError(400, "missing to or subject") && db.log == old(db.log)
    ensures Accepts(payload) ==>
              r == Ok(QueuedAck)
              && db.log == old(db.log) + [LogEntry(now, WebhookSend(payload["to"], Json.Lookup(payload, "sequenceId"),
                                                                     Json.Lookup(payload, "stepIndex"), payload["subject"]))]
  {
    var to := Json.Lookup(payload, "to");
    var subject := Json.Lookup(payload, "subject");
    var sequence := Json.Lookup(payload, "sequenceId");
    var step := Json.Lookup(payload, "stepIndex");
    if !(to.Some? && Json.Truthy(to.value)) || !(subject.Some? && Json.Truthy(subject.value)) {
      return HttpError(400, "missing to or subject");
    }
    db.LogActivity(now, WebhookSend(to.value, sequence, step, subject.value));
    r := Ok(QueuedAck);
  }

  /** The JSON body the sequences page builds for one step. */
  function PayloadJson(p: Sequences.Payload): (d: map<string, Json.Value>)
    ensures d.Keys == {"to", "subject", "body", "sequenceId", "stepIndex"}
  {
    map["to" := Json.Str(p.to), "subject" := Json.Str(p.subject), "body" := Json.Str(p.body),
        "sequenceId" := Json.Str(p.sequenceId), "stepIndex" := Json.Number(p.stepIndex as real)]
  }

  /** Were the page's calls sent to this webhook, a scheduled step would be
      refused exactly when its subject is empty: a save always has a
      recipient, and the builder lets a subject stay empty. */
  lemma PlannedStepAccepted(steps: seq<Sequences.SequenceBuilder.EmailStep>, recipient: string, sequenceId: string, i: int)
    requires recipient != "" && 0 <= i < |steps|
    ensures var plan := Sequences.Plan(steps, recipient, sequenceId);
      i < |plan| && (Accepts(PayloadJson(plan[i].payload)) <==> steps[i].subject != "")
  {
    Sequences.PlanShape(steps, recipient, sequenceId);
  }
}
