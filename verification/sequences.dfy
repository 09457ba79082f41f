/**
 * The sequences page: the status handlers, saving a built sequence (the new
 * record, one scheduled webhook call per step and the notices each call
 * raises), the deep link that opens the builder, and the stats. Timers are
 * modelled by the list of (offset, payload) pairs they are registered with.
 */
module Sequences {
  import opened Wrappers
  import opened SequenceCard
  import opened SequenceBuilder
  import Url
  import LeadCard

  // ---------------------------------------------------------------------------
  // Status handlers and stats

  /** `sequences.map(s => s.id === id ? { ...s, status } : s)`: the matching
      sequences take the status, with no check of the one they had. */
  function SetStatus(seqs: seq<EmailSequence>, id: string, status: SequenceStatus): (r: seq<EmailSequence>)
    ensures |r| == |seqs|
    ensures forall k :: 0 <= k < |seqs| && seqs[k].id == id ==> r[k] == seqs[k].(status := status)
    ensures forall k :: 0 <= k < |seqs| && seqs[k].id != id ==> r[k] == seqs[k]
  {
    if seqs == [] then []
    else [if seqs[0].id == id then seqs[0].(status := status) else seqs[0]] + SetStatus(seqs[1..], id, status)
  }

  /** The "Active" stat: `sequences.filter(s => s.status === "active").length`. */
  function ActiveCount(seqs: seq<EmailSequence>): (n: nat)
    ensures n <= |seqs|
  {
    if seqs == [] then 0
    else (if seqs[0].status == Active then 1 else 0) + ActiveCount(seqs[1..])
  }

  /** The "Leads Enrolled" stat: the sum of `leadsInSequence`. */
  function LeadsEnrolled(seqs: seq<EmailSequence>): int {
    if seqs == [] then 0 else seqs[0].leadsInSequence + LeadsEnrolled(seqs[1..])
  }

  /** Both stats add up over a concatenation. */
  lemma {:induction false} StatsAppend(a: seq<EmailSequence>, b: seq<EmailSequence>)
    ensures ActiveCount(a + b) == ActiveCount(a) + ActiveCount(b)
    ensures LeadsEnrolled(a + b) == LeadsEnrolled(a) + LeadsEnrolled(b)
  {
    if a == [] {
      assert a + b == b;
    } else {
      assert (a + b)[0] == a[0] && (a + b)[1..] == a[1..] + b;
      StatsAppend(a[1..], b);
    }
  }

  /** A status change never changes how many leads are enrolled, and the active
      count moves by at most the number of sequences with the id. */
  lemma {:induction false} SetStatusStats(seqs: seq<EmailSequence>, id: string, status: SequenceStatus)
    ensures LeadsEnrolled(SetStatus(seqs, id, status)) == LeadsEnrolled(seqs)
    ensures status == Active ==> ActiveCount(SetStatus(seqs, id, status)) >= ActiveCount(seqs)
    ensures status != Active ==> ActiveCount(SetStatus(seqs, id, status)) <= ActiveCount(seqs)
  {
    if seqs != [] {
      SetStatusStats(seqs[1..], id, status);
      assert SetStatus(seqs, id, status)[1..] == SetStatus(seqs[1..], id, status);
    }
  }

  // ---------------------------------------------------------------------------
  // Scheduling the steps of a saved sequence

  /** `TIME_UNIT_MS`: the gap between two steps' sends. */
  const TimeUnitMs := 10000

  /** The body of one webhook call. */
  datatype Payload = Payload(to: string, subject: string, body: string, sequenceId: string, stepIndex: int)

  /** One registered timer: its delay and what it sends. */
  datatype Dispatch = Dispatch(offsetMs: int, payload: Payload)

  /** What `steps.forEach` registers: step `idx` at `idx * TIME_UNIT_MS`,
      numbered from one, with the step's subject and body. */
  function Plan(steps: seq<EmailStep>, recipient: string, sequenceId: string): (plan: seq<Dispatch>)
    ensures |plan| == |steps|
  {
    seq(|steps|, idx requires 0 <= idx < |steps| =>
      Dispatch(idx * TimeUnitMs, Payload(recipient, steps[idx].subject, steps[idx].body, sequenceId, idx + 1)))
  }

  /** The first email goes at once, the offsets strictly increase, and every
      payload carries the recipient, the sequence id and the 1-based step number. */
  lemma PlanShape(steps: seq<EmailStep>, recipient: string, sequenceId: string)
    ensures var plan := Plan(steps, recipient, sequenceId);
      && (|plan| > 0 ==> plan[0].offsetMs == 0)
      && (forall i, j :: 0 <= i < j < |plan| ==> plan[i].offsetMs < plan[j].offsetMs)
      && (forall i :: 0 <= i < |plan| ==>
            plan[i].payload.to == recipient && plan[i].payload.sequenceId == sequenceId
            && plan[i].payload.stepIndex == i + 1
            && plan[i].payload.subject == steps[i].subject && plan[i].payload.body == steps[i].body)
  {
    var plan := Plan(steps, recipient, sequenceId);
    forall i, j | 0 <= i < j < |plan| ensures plan[i].offsetMs < plan[j].offsetMs {
      assert plan[i].offsetMs == i * TimeUnitMs && plan[j].offsetMs == j * TimeUnitMs;
    }
  }

  /** Steps that differ only in their delays and ids are scheduled the same:
      `delayDays` is never read. */
  lemma PlanIgnoresDelay(a: seq<EmailStep>, b: seq<EmailStep>, recipient: string, sequenceId: string)
    requires |a| == |b|
    requires forall k :: 0 <= k < |a| ==> a[k].subject == b[k].subject && a[k].body == b[k].body
    ensures Plan(a, recipient, sequenceId) == Plan(b, recipient, sequenceId)
  {
  }

  /** The `forEach` loop: registers one timer per step, in step order. */
  method Schedule(steps: seq<EmailStep>, recipient: string, sequenceId: string) returns (plan: seq<Dispatch>)
    ensures plan == Plan(steps, recipient, sequenceId)
  {
    plan := [];
    var idx := 0;
    while idx < |steps|
      invariant 0 <= idx <= |steps|
      invariant plan == Plan(steps[..idx], recipient, sequenceId)
    {
      var step := steps[idx];
      var payload := Payload(recipient, step.subject, step.body, sequenceId, idx + 1);
      plan := plan + [Dispatch(idx * TimeUnitMs, payload)];
      idx := idx + 1;
    }
    assert steps[..idx] == steps;
  }

  /** How the webhook call of one step ended. */
  datatype CallResult = Responded(ok: bool) | Threw

  /** The notices one step raises, numbered like the step (`idx + 1`). */
  datatype Notice = Sending(n: int) | Queued(n: int) | WebhookFailed(n: int) | CallError(n: int)

  /** What a timer does when it fires: "Sending", then exactly one outcome —
      queued on an ok response, failed on another response, an error when the
      call throws. */
  function Fire(idx: int, result: CallResult): (notices: seq<Notice>)
    ensures |notices| == 2 && notices[0] == Sending(idx + 1) && notices[1].n == idx + 1
    ensures notices[1].Queued? <==> result == Responded(true)
    ensures notices[1].WebhookFailed? <==> result == Responded(false)
    ensures notices[1].CallError? <==> result.Threw?
  {
    var outcome := match result
      case Responded(true) => Queued(idx + 1)
      case Responded(false) => WebhookFailed(idx + 1)
      case Threw => CallError(idx + 1);
    [Sending(idx + 1), outcome]
  }

  // ---------------------------------------------------------------------------
  // The deep link

  /** A query value is truthy: present and not "". */
  predicate Truthy(v: Option<string>) {
    v.Some? && v.value != ""
  }

  /** The `useEffect` guard: the recipient to open the builder for, when both
      `newSequence` and `to` are truthy. */
  function DeepLinkRecipient(query: seq<(string, string)>): (r: Option<string>)
    ensures r.Some? <==> Truthy(Url.Get(query, "newSequence")) && Truthy(Url.Get(query, "to"))
    ensures r.Some? ==> r == Url.Get(query, "to") && r.value != ""
  {
    var newSequence := Url.Get(query, "newSequence");
    var to := Url.Get(query, "to");
    if Truthy(newSequence) && Truthy(to) then to else None
  }

  /** The link behind a lead card's "Create Sequence" opens the builder for
      exactly that email, unless the email is empty. */
  lemma CreateSequenceLinkAccepted(email: string)
    ensures var r := DeepLinkRecipient(LeadCard.CreateSequenceLink(email).query);
      (r.Some? <==> email != "") && (r.Some? ==> r.value == email)
  {
  }

  // ---------------------------------------------------------------------------
  // The page state

  /** What saving reports besides the schedule. */
  datatype SaveNotice = MissingRecipient | Scheduled(name: string)

  /** The record a save appends. */
  function NewSequence(id: string, recipient: string, steps: seq<EmailStep>): (s: EmailSequence)
    ensures s.id == id && s.name == "Sequence for " + recipient && s.emailCount == |steps|
    ensures s.status == Active && s.leadsInSequence == 1
  {
    EmailSequence(id, "Sequence for " + recipient, |steps|, Active, 1)
  }

  class SequencesPage {
    var sequences: seq<EmailSequence>
    var builderOpen: bool
    var recipient: string

    constructor (sequences: seq<EmailSequence>)
      ensures this.sequences == sequences && !builderOpen && recipient == ""
    {
      this.sequences := sequences;
      builderOpen := false;
      recipient := "";
    }

    /** `handleStart`: the matching sequences become active. */
    method Start(id: string)
      modifies this`sequences
      ensures sequences == SetStatus(old(sequences), id, Active)
    {
      sequences := SetStatus(sequences, id, Active);
    }

    /** `handlePause`: the matching sequences become paused. */
    method Pause(id: string)
      modifies this`sequences
      ensures sequences == SetStatus(old(sequences), id, Paused)
    {
      sequences := SetStatus(sequences, id, Paused);
    }

    /** `handleStop`: the matching sequences become stopped. */
    method Stop(id: string)
      modifies this`sequences
      ensures sequences == SetStatus(old(sequences), id, Stopped)
    {
      sequences := SetStatus(sequences, id, Stopped);
    }

    /** The recipient field's `onChange`. */
    method SetRecipient(text: string)
      modifies this`recipient
      ensures recipient == text
    {
      recipient := text;
    }

    /** The dialog's `onOpenChange` and the "Create Sequence" button. */
    method SetBuilderOpen(open: bool)
      modifies this`builderOpen
      ensures builderOpen == open
    {
      builderOpen := open;
    }

    /** The deep-link `useEffect`: with both parameters truthy, takes `to` as
        the recipient and opens the builder; otherwise nothing changes. */
    method ApplyDeepLink(query: seq<(string, string)>)
      modifies this`recipient, this`builderOpen
      ensures DeepLinkRecipient(query).Some? ==> recipient == DeepLinkRecipient(query).value && builderOpen
      ensures DeepLinkRecipient(query).None? ==> recipient == old(recipient) && builderOpen == old(builderOpen)
    {
      var newSequence := Url.Get(query, "newSequence");
      var to := Url.Get(query, "to");
      if Truthy(newSequence) && Truthy(to) {
        recipient := to.value;
        builderOpen := true;
      }
    }

    /** `handleSaveSequence`: without a recipient nothing is added or
        scheduled; otherwise one active record is appended, the builder closes
        and every step is scheduled. */
    method SaveSequence(steps: seq<EmailStep>, freshId: string) returns (plan: seq<Dispatch>, notice: SaveNotice)
      modifies this`sequences, this`builderOpen
      ensures old(recipient) == "" ==>
        notice == MissingRecipient && plan == [] && sequences == old(sequences) && builderOpen == old(builderOpen)
      ensures old(recipient) != "" ==>
        && sequences == old(sequences) + [NewSequence(freshId, recipient, steps)]
        && !builderOpen
        && plan == Plan(steps, recipient, freshId)
        && notice == Scheduled("Sequence for " + recipient)
    {
      if recipient == "" {
        plan, notice := [], MissingRecipient;
        return;
      }
      var record := NewSequence(freshId, recipient, steps);
      sequences := sequences + [record];
      builderOpen := false;
      plan := Schedule(steps, recipient, record.id);
      notice := Scheduled(record.name);
    }
  }
}
