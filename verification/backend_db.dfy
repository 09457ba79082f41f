/**
 * The server's SQLite tables and the functions of its data layer. Tables with
 * an AUTOINCREMENT key that the code reads back (`leads`, `sequences`) are maps
 * from id to row with a counter for the next id; the tables it only appends to
 * and scans (`sequence_steps`, `sequence_leads`, `activity_log`) are sequences
 * in insertion (rowid) order. Every timestamp the code takes from
 * `datetime.utcnow()` is the `now` parameter.
 */
module BackendDb {
  import opened Wrappers
  import opened Text
  import opened Sorting
  import Json

  datatype LeadRow = LeadRow(name: string, email: string, claimedBy: Option<string>,
                             claimedAt: Option<string>, createdAt: string)

  datatype SequenceRow = SequenceRow(name: string, scheduledAt: Option<string>, status: string,
                                     createdBy: Option<string>, createdAt: string, sentAt: Option<string>)

  datatype StepRow = StepRow(sequenceId: int, stepIndex: int, delayHours: int, subject: string, body: string)

  datatype LinkRow = LinkRow(sequenceId: int, leadId: int)

  /** A step as a request submits it (`SequenceStep`). */
  datatype StepIn = StepIn(stepIndex: int, delayHours: int, subject: string, body: string)

  /** What an activity record says; `Type` is its `type` column. The text of
      the `details` column is not modelled, only what it is made from. */
  datatype Event =
    | LeadUpdated(leadId: int)
    | LeadDeleted(leadId: int)
    | LeadClaimed(leadId: int, claimer: string)
    | StatusChanged(sequenceId: int, status: string)
    | Sent(sequenceId: int, leadId: int)
    | WebhookSend(to: Json.Value, sequence: Option<Json.Value>, step: Option<Json.Value>, subject: Json.Value)
  {
    function Type(): string {
      match this
      case LeadUpdated(_) => "update"
      case LeadDeleted(_) => "delete"
      case LeadClaimed(_, _) => "claim"
      case StatusChanged(_, _) => "sequence_status"
      case Sent(_, _) => "send"
      case WebhookSend(_, _, _, _) => "webhook_send"
    }
  }

  datatype LogEntry = LogEntry(ts: string, event: Event)

  /** A sequence as `get_sequence`/`list_sequences` return it: the row with its
      steps and linked lead ids. */
  datatype SequenceView = SequenceView(id: int, row: SequenceRow, steps: seq<StepRow>, leadIds: seq<int>)

  const Scheduled := "scheduled"
  const SentStatus := "sent"
  const ActivityLimit := 200

  // ---------------------------------------------------------------------------
  // Row selections the SQL statements make

  /** `ORDER BY id DESC` over the rows with ids in [lo, hi). */
  function DescEntries<V>(m: map<int, V>, lo: int, hi: int): seq<(int, V)>
    decreases hi - lo
  {
    if lo >= hi then []
    else DescEntries(m, lo + 1, hi) + (if lo in m then [(lo, m[lo])] else [])
  }

  /** The listing holds exactly the rows in range, newest id first. */
  lemma {:induction false} DescEntriesShape<V>(m: map<int, V>, lo: int, hi: int)
    ensures forall k :: 0 <= k < |DescEntries(m, lo, hi)| ==>
              var row := DescEntries(m, lo, hi)[k]; lo <= row.0 < hi && row.0 in m && row.1 == m[row.0]
    ensures forall i, j :: 0 <= i < j < |DescEntries(m, lo, hi)| ==> DescEntries(m, lo, hi)[i].0 > DescEntries(m, lo, hi)[j].0
    ensures forall id :: id in m && lo <= id < hi ==> (id, m[id]) in DescEntries(m, lo, hi)
    decreases hi - lo
  {
    if lo < hi {
      DescEntriesShape(m, lo + 1, hi);
      var rest := DescEntries(m, lo + 1, hi);
      var rows := DescEntries(m, lo, hi);
      assert rows == rest + (if lo in m then [(lo, m[lo])] else []);
      forall i, j | 0 <= i < j < |rows| ensures rows[i].0 > rows[j].0 {
        assert rows[i] == rest[i] && lo < rest[i].0;
        if j < |rest| {
          assert rows[j] == rest[j];
        } else {
          assert rows[j] == (lo, m[lo]);
        }
      }
      forall id | id in m && lo <= id < hi ensures (id, m[id]) in rows {
        if id > lo {
          assert (id, m[id]) in rest;
        } else {
          assert rows[|rows| - 1] == (id, m[id]);
        }
      }
    }
  }

  /** `scheduled_at IS NOT NULL AND scheduled_at <= now AND status = 'scheduled'`. */
  predicate IsDue(row: SequenceRow, now: string) {
    row.status == Scheduled && row.scheduledAt.Some? && !StrLess(now, row.scheduledAt.value)
  }

  /** The due ids in [lo, hi), in ascending id order. */
  function DueIds(m: map<int, SequenceRow>, now: string, lo: int, hi: int): seq<int>
    decreases hi - lo
  {
    if lo >= hi then []
    else DueIds(m, now, lo, hi - 1) + (if hi - 1 in m && IsDue(m[hi - 1], now) then [hi - 1] else [])
  }

  /** The selection holds exactly the due sequences in range, each once, in
      ascending id order. */
  lemma {:induction false} DueIdsShape(m: map<int, SequenceRow>, now: string, lo: int, hi: int)
    ensures var due := DueIds(m, now, lo, hi);
      && (forall i, j :: 0 <= i < j < |due| ==> due[i] < due[j])
      && (forall id :: id in due <==> id in m && lo <= id < hi && IsDue(m[id], now))
    decreases hi - lo
  {
    if lo < hi {
      DueIdsShape(m, now, lo, hi - 1);
      var rest := DueIds(m, now, lo, hi - 1);
      var due := DueIds(m, now, lo, hi);
      assert due == rest + (if hi - 1 in m && IsDue(m[hi - 1], now) then [hi - 1] else []);
      forall i, j | 0 <= i < j < |due| ensures due[i] < due[j] {
        assert due[i] == rest[i] && rest[i] in rest;
        if j < |rest| {
          assert due[j] == rest[j];
        } else {
          assert due[j] == hi - 1;
        }
      }
    }
  }

  /** `WHERE sequence_id = ?` on the steps, in rowid order. */
  function StepsOf(steps: seq<StepRow>, sequenceId: int): (r: seq<StepRow>)
    ensures forall k :: 0 <= k < |r| ==> r[k].sequenceId == sequenceId && r[k] in steps
  {
    if steps == [] then []
    else (if steps[0].sequenceId == sequenceId then [steps[0]] else []) + StepsOf(steps[1..], sequenceId)
  }

  /** `SELECT lead_id FROM sequence_leads WHERE sequence_id = ?`, in rowid order. */
  function LeadIdsOf(links: seq<LinkRow>, sequenceId: int): (r: seq<int>)
    ensures forall id :: id in r <==> LinkRow(sequenceId, id) in links
  {
    if links == [] then []
    else
      var r := (if links[0].sequenceId == sequenceId then [links[0].leadId] else []) + LeadIdsOf(links[1..], sequenceId);
      assert links == [links[0]] + links[1..];
      r
  }

  /** `DELETE FROM sequence_leads WHERE lead_id = ?`: the other links are kept
      in order. */
  function LinksWithoutLead(links: seq<LinkRow>, leadId: int): (r: seq<LinkRow>)
    ensures forall l :: l in r <==> l in links && l.leadId != leadId
    ensures forall k :: 0 <= k < |r| ==> r[k] in links
  {
    if links == [] then []
    else
      assert links == [links[0]] + links[1..];
      (if links[0].leadId == leadId then [] else [links[0]]) + LinksWithoutLead(links[1..], leadId)
  }

  /** `ORDER BY step_index`. */
  function StepOrder(): (StepRow, StepRow) -> bool {
    (a: StepRow, b: StepRow) => a.stepIndex <= b.stepIndex
  }

  lemma StepOrderTotal()
    ensures TotalPreorder(StepOrder())
  {
  }

  /** The rows `add_leads_to_sequence` inserts: one per id, in order, duplicates kept. */
  function LinksFor(sequenceId: int, leadIds: seq<int>): (r: seq<LinkRow>)
    ensures |r| == |leadIds|
    ensures forall k :: 0 <= k < |r| ==> r[k] == LinkRow(sequenceId, leadIds[k])
  {
    if leadIds == [] then [] else [LinkRow(sequenceId, leadIds[0])] + LinksFor(sequenceId, leadIds[1..])
  }

  /** `s` back to front. */
  function Reverse<T>(s: seq<T>): (r: seq<T>)
    ensures |r| == |s|
    ensures forall k :: 0 <= k < |s| ==> r[k] == s[|s| - 1 - k]
  {
    if s == [] then [] else [s[|s| - 1]] + Reverse(s[..|s| - 1])
  }

  /** `ORDER BY id DESC LIMIT 200` over the activity log. */
  function Recent(log: seq<LogEntry>): (r: seq<LogEntry>)
    ensures |r| == if |log| < ActivityLimit then |log| else ActivityLimit
    ensures forall k :: 0 <= k < |r| ==> r[k] == log[|log| - 1 - k]
  {
    var n := if |log| < ActivityLimit then |log| else ActivityLimit;
    var tail := log[|log| - n..];
    Reverse(tail)
  }

  /** A listing taken after more entries were appended starts with the new
      ones, newest first, and the log itself is never rewritten. */
  lemma RecentAfterAppend(log: seq<LogEntry>, e: LogEntry)
    ensures Recent(log + [e])[0] == e
    ensures |log| < ActivityLimit ==> Recent(log + [e]) == [e] + Recent(log)
  {
    var r := Recent(log + [e]);
    if |log| < ActivityLimit {
      var s := [e] + Recent(log);
      assert |r| == |s|;
      forall k | 0 <= k < |r| ensures r[k] == s[k] {
        if k > 0 {
          assert (log + [e])[|log| - k] == log[|log| - 1 - (k - 1)];
        }
      }
    }
  }

  // ---------------------------------------------------------------------------
  // The database

  class Database {
    var leads: map<int, LeadRow>
    var nextLeadId: int
    var sequences: map<int, SequenceRow>
    var nextSequenceId: int
    var steps: seq<StepRow>
    var links: seq<LinkRow>
    var log: seq<LogEntry>

    /** The AUTOINCREMENT keys lie below their counters, the UNIQUE
        constraint on `leads.email` holds, and no step or link names a sequence
        id not yet handed out. */
    predicate Valid()
      reads this`leads, this`nextLeadId, this`sequences, this`nextSequenceId, this`steps, this`links
    {
      && 1 <= nextLeadId && 1 <= nextSequenceId
      && (forall id :: id in leads ==> 1 <= id < nextLeadId)
      && (forall id :: id in sequences ==> 1 <= id < nextSequenceId)
      && (forall a, b :: a in leads && b in leads && a != b ==> leads[a].email != leads[b].email)
      && (forall k :: 0 <= k < |steps| ==> steps[k].sequenceId < nextSequenceId)
      && (forall k :: 0 <= k < |links| ==> links[k].sequenceId < nextSequenceId)
    }

    /** `init_db` on a fresh file: every table empty. */
    constructor ()
      ensures Valid()
      ensures leads == map[] && sequences == map[] && steps == [] && links == [] && log == []
    {
      leads, nextLeadId := map[], 1;
      sequences, nextSequenceId := map[], 1;
      steps, links, log := [], [], [];
    }

    /** `log_activity`: appends one record; nothing else changes. */
    method LogActivity(now: string, event: Event)
      modifies this`log
      ensures log == old(log) + [LogEntry(now, event)]
    {
      log := log + [LogEntry(now, event)];
    }

    /** `list_activity`: the newest 200 records, newest first. */
    function ListActivity(): (rows: seq<LogEntry>)
      reads this
      ensures |rows| <= ActivityLimit
      ensures forall k :: 0 <= k < |rows| ==> rows[k] in log
      ensures |rows| == if |log| < ActivityLimit then |log| else ActivityLimit
      ensures forall k :: 0 <= k < |rows| ==> rows[k] == log[|log| - 1 - k]
    {
      Recent(log)
    }

    /** `SELECT id FROM leads WHERE email = ?`, as a scan in id order. */
    method FindIdByEmail(email: string) returns (r: Option<int>)
      requires Valid()
      ensures r.None? <==> forall id :: id in leads ==> leads[id].email != email
      ensures r.Some? ==> r.value in leads && leads[r.value].email == email
    {
      var i := 1;
      while i < nextLeadId
        invariant 1 <= i <= nextLeadId
        invariant forall id :: id in leads && id < i ==> leads[id].email != email
      {
        if i in leads && leads[i].email == email {
          return Some(i);
        }
        i := i + 1;
      }
      return None;
    }

    /** `insert_lead`: INSERT OR IGNORE on the unique email, then the id of the
        row holding that email — the existing one, or a new one with the next id.
        The AUTOINCREMENT counter moves on either way: SQLite draws the new rowid
        before the UNIQUE check, and an ignored row leaves a gap in the ids. */
    method InsertLead(name: string, email: string, now: string) returns (id: int)
      requires Valid()
      modifies this`leads, this`nextLeadId
      ensures Valid()
      ensures id in leads && leads[id].email == email
      ensures nextLeadId == old(nextLeadId) + 1
      ensures (exists o :: o in old(leads) && old(leads)[o].email == email) ==>
                id in old(leads) && leads == old(leads)
      ensures (forall o :: o in old(leads) ==> old(leads)[o].email != email) ==>
                id == old(nextLeadId) && leads == old(leads)[id := LeadRow(name, email, None, None, now)]
    {
      var existing := FindIdByEmail(email);
      if existing.Some? {
        id := existing.value;
      } else {
        id := nextLeadId;
        leads := leads[id := LeadRow(name, email, None, None, now)];
      }
      nextLeadId := nextLeadId + 1;
    }

    /** `list_leads`: every lead, newest id first. */
    method ListLeads() returns (rows: seq<(int, LeadRow)>)
      requires Valid()
      ensures rows == DescEntries(leads, 1, nextLeadId)
      ensures forall i, j :: 0 <= i < j < |rows| ==> rows[i].0 > rows[j].0
      ensures forall k :: 0 <= k < |rows| ==> rows[k].0 in leads && rows[k].1 == leads[rows[k].0]
      ensures forall id :: id in leads ==> (id, leads[id]) in rows
    {
      rows := [];
      var i := nextLeadId - 1;
      while i >= 1
        invariant 0 <= i < nextLeadId
        invariant rows == DescEntries(leads, i + 1, nextLeadId)
      {
        rows := rows + (if i in leads then [(i, leads[i])] else []);
        i := i - 1;
      }
      DescEntriesShape(leads, 1, nextLeadId);
    }

    /** `get_lead`. */
    function GetLead(id: int): (r: Option<LeadRow>)
      reads this
      ensures r.Some? <==> id in leads
      ensures r.Some? ==> r.value == leads[id]
    {
      if id in leads then Some(leads[id]) else None
    }

    /** Another lead than `id` already holds `email`. */
    ghost predicate EmailTakenByOther(id: int, email: string)
      reads this
    {
      exists o :: o in leads && o != id && leads[o].email == email
    }

    /** `update_lead`. With neither field given it only reads the row back.
        Otherwise it fails (None, nothing logged) when the lead is absent or the
        new email belongs to another lead — the UNIQUE constraint makes the
        UPDATE raise; else it sets the given fields, logs "update" and returns
        the new row. */
    method UpdateLead(id: int, name: Option<string>, email: Option<string>, now: string) returns (r: Option<LeadRow>)
      requires Valid()
      modifies this`leads, this`log
      ensures Valid()
      ensures name.None? && email.None? ==> r == old(GetLead(id)) && leads == old(leads) && log == old(log)
      ensures (name.Some? || email.Some?) && (id !in old(leads) || (email.Some? && old(EmailTakenByOther(id, email.value)))) ==>
                r.None? && leads == old(leads) && log == old(log)
      ensures (name.Some? || email.Some?) && id in old(leads) && !(email.Some? && old(EmailTakenByOther(id, email.value))) ==>
                var row := old(leads)[id];
                var updated := row.(name := if name.Some? then name.value else row.name,
                                    email := if email.Some? then email.value else row.email);
                r == Some(updated) && leads == old(leads)[id := updated]
                && log == old(log) + [LogEntry(now, LeadUpdated(id))]
    {
      if name.None? && email.None? {
        return GetLead(id);
      }
      if id !in leads {
        return None;
      }
      if email.Some? {
        var holder := FindIdByEmail(email.value);
        if holder.Some? && holder.value != id {
          return None;
        }
        assert !EmailTakenByOther(id, email.value);
      }
      var row := leads[id];
      var updated := row.(name := if name.Some? then name.value else row.name,
                          email := if email.Some? then email.value else row.email);
      leads := leads[id := updated];
      LogActivity(now, LeadUpdated(id));
      r := Some(updated);
    }

    /** `delete_lead`: drops the lead's sequence links and the lead; reports
        and logs "delete" exactly when the lead existed. */
    method DeleteLead(id: int, now: string) returns (changed: bool)
      requires Valid()
      modifies this`leads, this`links, this`log
      ensures Valid()
      ensures changed <==> id in old(leads)
      ensures leads == old(leads) - {id} && links == LinksWithoutLead(old(links), id)
      ensures changed ==> log == old(log) + [LogEntry(now, LeadDeleted(id))]
      ensures !changed ==> log == old(log)
    {
      links := LinksWithoutLead(links, id);
      changed := id in leads;
      leads := leads - {id};
      if changed {
        LogActivity(now, LeadDeleted(id));
      }
    }

    /** `claim_lead`: succeeds only on an existing, unclaimed lead, recording
        the claimer and the time and logging "claim"; otherwise nothing changes. */
    method ClaimLead(id: int, claimer: string, now: string) returns (changed: bool)
      requires Valid()
      modifies this`leads, this`log
      ensures Valid()
      ensures changed <==> id in old(leads) && old(leads)[id].claimedBy.None?
      ensures changed ==> leads == old(leads)[id := old(leads)[id].(claimedBy := Some(claimer), claimedAt := Some(now))]
                          && log == old(log) + [LogEntry(now, LeadClaimed(id, claimer))]
      ensures !changed ==> leads == old(leads) && log == old(log)
    {
      changed := id in leads && leads[id].claimedBy.None?;
      if changed {
        leads := leads[id := leads[id].(claimedBy := Some(claimer), claimedAt := Some(now))];
        LogActivity(now, LeadClaimed(id, claimer));
      }
    }

    /** `create_sequence`: a new row with the next id in status "scheduled". */
    method CreateSequence(name: string, scheduledAt: Option<string>, createdBy: Option<string>, now: string)
      returns (id: int)
      requires Valid()
      modifies this`sequences, this`nextSequenceId
      ensures Valid()
      ensures id == old(nextSequenceId) && id !in old(sequences) && nextSequenceId == id + 1
      ensures sequences == old(sequences)[id := SequenceRow(name, scheduledAt, Scheduled, createdBy, now, None)]
    {
      id := nextSequenceId;
      sequences := sequences[id := SequenceRow(name, scheduledAt, Scheduled, createdBy, now, None)];
      nextSequenceId := nextSequenceId + 1;
    }

    /** `add_sequence_step`. No foreign key is checked. */
    method AddSequenceStep(sequenceId: int, stepIndex: int, delayHours: int, subject: string, body: string)
      modifies this`steps
      ensures steps == old(steps) + [StepRow(sequenceId, stepIndex, delayHours, subject, body)]
      ensures old(Valid()) && sequenceId < nextSequenceId ==> Valid()
    {
      steps := steps + [StepRow(sequenceId, stepIndex, delayHours, subject, body)];
    }

    /** `add_sequence_lead`. No foreign key is checked. */
    method AddSequenceLead(sequenceId: int, leadId: int)
      modifies this`links
      ensures links == old(links) + [LinkRow(sequenceId, leadId)]
      ensures old(Valid()) && sequenceId < nextSequenceId ==> Valid()
    {
      links := links + [LinkRow(sequenceId, leadId)];
    }

    /** `add_leads_to_sequence`: one link per id, in order, without removing
        duplicates. */
    method AddLeadsToSequence(sequenceId: int, leadIds: seq<int>)
      modifies this`links
      ensures links == old(links) + LinksFor(sequenceId, leadIds)
      ensures old(Valid()) && sequenceId < nextSequenceId ==> Valid()
    {
      var i := 0;
      while i < |leadIds|
        invariant 0 <= i <= |leadIds|
        invariant links == old(links) + LinksFor(sequenceId, leadIds[..i])
        invariant old(Valid()) && sequenceId < nextSequenceId ==> Valid()
      {
        LinksForSnoc(sequenceId, leadIds, i);
        AddSequenceLead(sequenceId, leadIds[i]);
        i := i + 1;
      }
      assert leadIds[..i] == leadIds;
    }

    /** A sequence with its steps in `step_index` order and its lead ids. */
    function View(id: int): (v: SequenceView)
      requires id in sequences
      reads this
      ensures v.id == id && v.row == sequences[id]
      ensures SortedBy(v.steps, StepOrder())
      ensures multiset(v.steps) == multiset(StepsOf(steps, id))
      ensures forall lead :: lead in v.leadIds <==> LinkRow(id, lead) in links
    {
      StepOrderTotal();
      SortBySorted(StepsOf(steps, id), StepOrder());
      SequenceView(id, sequences[id], SortBy(StepsOf(steps, id), StepOrder()), LeadIdsOf(links, id))
    }

    /** `get_sequence`. */
    function GetSequence(id: int): (r: Option<SequenceView>)
      reads this
      ensures r.Some? <==> id in sequences
      ensures r.Some? ==> r.value == View(id)
    {
      if id in sequences then Some(View(id)) else None
    }

    /** The views of the sequences with ids in [lo, hi), newest first. */
    function ViewsDesc(lo: int, hi: int): seq<SequenceView>
      reads this
      decreases hi - lo
    {
      if lo >= hi then []
      else ViewsDesc(lo + 1, hi) + (if lo in sequences then [View(lo)] else [])
    }

    /** The views of the sequences with ids in [lo, hi): each is the view of a
        sequence in range, ids strictly decrease, and every such sequence is
        there. */
    lemma {:induction false} ViewsDescShape(lo: int, hi: int)
      ensures forall k :: 0 <= k < |ViewsDesc(lo, hi)| ==>
                var v := ViewsDesc(lo, hi)[k]; lo <= v.id < hi && v.id in sequences && v == View(v.id)
      ensures forall i, j :: 0 <= i < j < |ViewsDesc(lo, hi)| ==> ViewsDesc(lo, hi)[i].id > ViewsDesc(lo, hi)[j].id
      ensures forall id :: id in sequences && lo <= id < hi ==> View(id) in ViewsDesc(lo, hi)
      decreases hi - lo
    {
      if lo < hi {
        ViewsDescShape(lo + 1, hi);
        var rest := ViewsDesc(lo + 1, hi);
        var rows := ViewsDesc(lo, hi);
        assert rows == rest + (if lo in sequences then [View(lo)] else []);
        forall k | 0 <= k < |rows|
          ensures lo <= rows[k].id < hi && rows[k].id in sequences && rows[k] == View(rows[k].id)
        {
          if k < |rest| {
            assert rows[k] == rest[k];
          }
        }
        forall i, j | 0 <= i < j < |rows| ensures rows[i].id > rows[j].id {
          assert rows[i] == rest[i] && lo < rest[i].id;
          if j < |rest| {
            assert rows[j] == rest[j];
          } else {
            assert rows[j] == View(lo);
          }
        }
        forall id | id in sequences && lo <= id < hi ensures View(id) in rows {
          if id > lo {
            assert View(id) in rest;
          } else {
            assert rows[|rows| - 1] == View(id);
          }
        }
      }
    }

    /** `list_sequences`: every sequence, newest id first, each with its steps
        and lead ids filled in. */
    method ListSequences() returns (rows: seq<SequenceView>)
      requires Valid()
      ensures rows == ViewsDesc(1, nextSequenceId)
      ensures forall i, j :: 0 <= i < j < |rows| ==> rows[i].id > rows[j].id
      ensures forall k :: 0 <= k < |rows| ==> rows[k].id in sequences && rows[k] == View(rows[k].id)
      ensures forall id :: id in sequences ==> View(id) in rows
    {
      rows := [];
      var i := nextSequenceId - 1;
      while i >= 1
        invariant 0 <= i < nextSequenceId
        invariant rows == ViewsDesc(i + 1, nextSequenceId)
      {
        ViewsDescStep(i, nextSequenceId);
        if i in sequences {
          var v := SequenceView(i, sequences[i], SortBy(StepsOf(steps, i), StepOrder()), LeadIdsOf(links, i));
          rows := rows + [v];
        }
        i := i - 1;
      }
      ViewsDescAll();
    }

    /** One more id at the low end adds its view, built as `get_sequence` builds
        it, at the end. */
    lemma ViewsDescStep(lo: int, hi: int)
      requires lo < hi
      ensures ViewsDesc(lo, hi) == ViewsDesc(lo + 1, hi)
        + (if lo in sequences
           then [SequenceView(lo, sequences[lo], SortBy(StepsOf(steps, lo), StepOrder()), LeadIdsOf(links, lo))]
           else [])
    {
    }

    /** The whole listing: views of present sequences, newest first, all of them. */
    lemma ViewsDescAll()
      requires Valid()
      ensures var rows := ViewsDesc(1, nextSequenceId);
        && (forall i, j :: 0 <= i < j < |rows| ==> rows[i].id > rows[j].id)
        && (forall k :: 0 <= k < |rows| ==> rows[k].id in sequences && rows[k] == View(rows[k].id))
        && (forall id :: id in sequences ==> View(id) in rows)
    {
      ViewsDescShape(1, nextSequenceId);
    }

    /** `update_sequence_status`: sets any status without checking the old one;
        reports and logs exactly when the sequence exists. */
    method UpdateSequenceStatus(id: int, status: string, now: string) returns (changed: bool)
      requires Valid()
      modifies this`sequences, this`log
      ensures Valid()
      ensures changed <==> id in old(sequences)
      ensures changed ==> sequences == old(sequences)[id := old(sequences)[id].(status := status)]
                          && log == old(log) + [LogEntry(now, StatusChanged(id, status))]
      ensures !changed ==> sequences == old(sequences) && log == old(log)
    {
      changed := id in sequences;
      if changed {
        sequences := sequences[id := sequences[id].(status := status)];
        LogActivity(now, StatusChanged(id, status));
      }
    }

    /** `get_due_sequences`: the ids of the due sequences, in id order. */
    method GetDueSequences(now: string) returns (due: seq<int>)
      requires Valid()
      ensures due == DueIds(sequences, now, 1, nextSequenceId)
      ensures forall i, j :: 0 <= i < j < |due| ==> due[i] < due[j]
      ensures forall id :: id in due <==> id in sequences && IsDue(sequences[id], now)
    {
      due := [];
      var i := 1;
      while i < nextSequenceId
        invariant 1 <= i <= nextSequenceId
        invariant due == DueIds(sequences, now, 1, i)
      {
        if i in sequences && IsDue(sequences[i], now) {
          due := due + [i];
        }
        i := i + 1;
      }
      DueIdsShape(sequences, now, 1, nextSequenceId);
    }

    /** `mark_sequence_sent`: status "sent" and the send time; after it the
        sequence is no longer due. */
    method MarkSequenceSent(id: int, now: string)
      requires Valid()
      modifies this`sequences
      ensures Valid()
      ensures id in old(sequences) ==>
                sequences == old(sequences)[id := old(sequences)[id].(status := SentStatus, sentAt := Some(now))]
      ensures id !in old(sequences) ==> sequences == old(sequences)
      ensures id in sequences ==> forall t :: !IsDue(sequences[id], t)
    {
      if id in sequences {
        sequences := sequences[id := sequences[id].(status := SentStatus, sentAt := Some(now))];
      }
    }

    /** `get_sequence_leads`. */
    function GetSequenceLeads(id: int): (r: seq<int>)
      reads this
      ensures forall lead :: lead in r <==> LinkRow(id, lead) in links
    {
      LeadIdsOf(links, id)
    }
  }

  /** Extending the id list by one extends the inserted rows by one. */
  lemma LinksForSnoc(sequenceId: int, leadIds: seq<int>, i: int)
    requires 0 <= i < |leadIds|
    ensures LinksFor(sequenceId, leadIds[..i + 1]) == LinksFor(sequenceId, leadIds[..i]) + [LinkRow(sequenceId, leadIds[i])]
  {
    var a := LinksFor(sequenceId, leadIds[..i + 1]);
    var b := LinksFor(sequenceId, leadIds[..i]) + [LinkRow(sequenceId, leadIds[i])];
    assert |a| == |b|;
    forall k | 0 <= k < |a| ensures a[k] == b[k] {
    }
  }

  /** The rows `create_sequence` inserts for the submitted steps, in order. */
  function StepRows(sequenceId: int, inputs: seq<StepIn>): (r: seq<StepRow>)
    ensures |r| == |inputs|
    ensures forall k :: 0 <= k < |r| ==>
              r[k] == StepRow(sequenceId, inputs[k].stepIndex, inputs[k].delayHours, inputs[k].subject, inputs[k].body)
  {
    if inputs == [] then []
    else
      var s := inputs[0];
      [StepRow(sequenceId, s.stepIndex, s.delayHours, s.subject, s.body)] + StepRows(sequenceId, inputs[1..])
  }

  lemma StepRowsSnoc(sequenceId: int, inputs: seq<StepIn>, i: int)
    requires 0 <= i < |inputs|
    ensures var s := inputs[i];
      StepRows(sequenceId, inputs[..i + 1]) == StepRows(sequenceId, inputs[..i]) + [StepRow(sequenceId, s.stepIndex, s.delayHours, s.subject, s.body)]
  {
    var s := inputs[i];
    var a := StepRows(sequenceId, inputs[..i + 1]);
    var b := StepRows(sequenceId, inputs[..i]) + [StepRow(sequenceId, s.stepIndex, s.delayHours, s.subject, s.body)];
    assert |a| == |b|;
    forall k | 0 <= k < |a| ensures a[k] == b[k] {
    }
  }

  /** Selecting a sequence's steps distributes over appended rows. */
  lemma {:induction false} StepsOfAppend(a: seq<StepRow>, b: seq<StepRow>, sequenceId: int)
    ensures StepsOf(a + b, sequenceId) == StepsOf(a, sequenceId) + StepsOf(b, sequenceId)
  {
    if a == [] {
      assert a + b == b;
    } else {
      assert (a + b)[0] == a[0] && (a + b)[1..] == a[1..] + b;
      StepsOfAppend(a[1..], b, sequenceId);
    }
  }

  /** Rows of other sequences select nothing. */
  lemma {:induction false} StepsOfOther(a: seq<StepRow>, sequenceId: int)
    requires forall k :: 0 <= k < |a| ==> a[k].sequenceId != sequenceId
    ensures StepsOf(a, sequenceId) == []
  {
    if a != [] {
      StepsOfOther(a[1..], sequenceId);
    }
  }

  /** Rows that all belong to the sequence are selected whole, in order. */
  lemma {:induction false} StepsOfOwn(a: seq<StepRow>, sequenceId: int)
    requires forall k :: 0 <= k < |a| ==> a[k].sequenceId == sequenceId
    ensures StepsOf(a, sequenceId) == a
  {
    if a != [] {
      StepsOfOwn(a[1..], sequenceId);
      assert a == [a[0]] + a[1..];
    }
  }

  /** Selecting a sequence's lead ids distributes over appended links. */
  lemma {:induction false} LeadIdsOfAppend(a: seq<LinkRow>, b: seq<LinkRow>, sequenceId: int)
    ensures LeadIdsOf(a + b, sequenceId) == LeadIdsOf(a, sequenceId) + LeadIdsOf(b, sequenceId)
  {
    if a == [] {
      assert a + b == b;
    } else {
      assert (a + b)[0] == a[0] && (a + b)[1..] == a[1..] + b;
      LeadIdsOfAppend(a[1..], b, sequenceId);
    }
  }

  /** Links of other sequences select nothing. */
  lemma {:induction false} LeadIdsOfOther(a: seq<LinkRow>, sequenceId: int)
    requires forall k :: 0 <= k < |a| ==> a[k].sequenceId != sequenceId
    ensures LeadIdsOf(a, sequenceId) == []
  {
    if a != [] {
      LeadIdsOfOther(a[1..], sequenceId);
    }
  }

  /** The links inserted for a list of ids give that list back, duplicates
      and order included. */
  lemma {:induction false} LeadIdsOfLinksFor(sequenceId: int, leadIds: seq<int>)
    ensures LeadIdsOf(LinksFor(sequenceId, leadIds), sequenceId) == leadIds
  {
    if leadIds != [] {
      LeadIdsOfLinksFor(sequenceId, leadIds[1..]);
      assert leadIds == [leadIds[0]] + leadIds[1..];
    }
  }
}
