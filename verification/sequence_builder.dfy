/**
 * The sequence builder's step list: one to four email steps, edited by adding
 * a step (with the largest id plus one), removing a step by id and changing one
 * field of a step. Step ids are the decimal numbers `parseInt` reads from them.
 */
module SequenceBuilder {

  /** One email of a sequence. `delayDays` is edited here but never read by the
      scheduler. */
  datatype EmailStep = EmailStep(id: int, subject: string, body: string, delayDays: int)

  /** The editable fields of a step, with their new value. */
  datatype StepField = Subject(subject: string) | Body(body: string) | DelayDays(days: int)

  const MaxSteps := 4

  /** The step a fresh builder starts with. */
  const DefaultStep := EmailStep(1, "", "", 0)

  /** `Math.max(...steps.map(s => parseInt(s.id)))`, taken as 0 for no steps. */
  function MaxId(steps: seq<EmailStep>): (m: int)
    ensures forall k :: 0 <= k < |steps| ==> steps[k].id <= m
    ensures steps != [] ==> exists k :: 0 <= k < |steps| && steps[k].id == m
  {
    if steps == [] then 0
    else if |steps| == 1 then steps[0].id
    else
      var rest := MaxId(steps[1..]);
      assert forall k :: 1 <= k < |steps| ==> steps[k] == steps[1..][k - 1];
      if steps[0].id >= rest then steps[0].id else rest
  }

  /** No two steps share an id. */
  predicate DistinctIds(steps: seq<EmailStep>) {
    forall i, j :: 0 <= i < j < |steps| ==> steps[i].id != steps[j].id
  }

  /** `steps.filter(s => s.id !== id)`. */
  function WithoutStep(steps: seq<EmailStep>, id: int): (r: seq<EmailStep>)
    ensures |r| <= |steps|
    ensures forall k :: 0 <= k < |r| ==> r[k].id != id && r[k] in steps
  {
    if steps == [] then []
    else (if steps[0].id == id then [] else [steps[0]]) + WithoutStep(steps[1..], id)
  }

  /** `{ ...s, [field]: value }`. */
  function SetField(s: EmailStep, f: StepField): (r: EmailStep)
    ensures r.id == s.id
    ensures r.subject == (if f.Subject? then f.subject else s.subject)
    ensures r.body == (if f.Body? then f.body else s.body)
    ensures r.delayDays == (if f.DelayDays? then f.days else s.delayDays)
  {
    match f
    case Subject(v) => s.(subject := v)
    case Body(v) => s.(body := v)
    case DelayDays(v) => s.(delayDays := v)
  }

  /** `steps.map(s => s.id === id ? { ...s, [field]: value } : s)`. */
  function UpdateById(steps: seq<EmailStep>, id: int, f: StepField): (r: seq<EmailStep>)
    ensures |r| == |steps|
    ensures forall k :: 0 <= k < |steps| ==> r[k].id == steps[k].id
    ensures forall k :: 0 <= k < |steps| && steps[k].id == id ==> r[k] == SetField(steps[k], f)
    ensures forall k :: 0 <= k < |steps| && steps[k].id != id ==> r[k] == steps[k]
  {
    if steps == [] then []
    else [if steps[0].id == id then SetField(steps[0], f) else steps[0]] + UpdateById(steps[1..], id, f)
  }

  /** With distinct ids the filter drops at most one step and keeps the ids distinct. */
  lemma {:induction false} WithoutStepDistinct(steps: seq<EmailStep>, id: int)
    requires DistinctIds(steps)
    ensures |WithoutStep(steps, id)| >= |steps| - 1
    ensures DistinctIds(WithoutStep(steps, id))
  {
    if steps != [] {
      var rest := steps[1..];
      WithoutStepDistinct(rest, id);
      if steps[0].id == id {
        WithoutStepAbsent(rest, id);
      } else {
        var r := WithoutStep(steps, id);
        assert r == [steps[0]] + WithoutStep(rest, id);
        forall j | 1 <= j < |r| ensures r[0].id != r[j].id {
          assert r[j] in rest;
        }
      }
    }
  }

  /** Filtering out an id no step has keeps every step. */
  lemma {:induction false} WithoutStepAbsent(steps: seq<EmailStep>, id: int)
    requires forall k :: 0 <= k < |steps| ==> steps[k].id != id
    ensures WithoutStep(steps, id) == steps
  {
    if steps != [] {
      WithoutStepAbsent(steps[1..], id);
    }
  }

  /** The filter keeps every step with another id as often as it occurred, and
      drops the steps with the id. */
  lemma {:induction false} WithoutStepCounts(steps: seq<EmailStep>, id: int)
    ensures forall s :: multiset(WithoutStep(steps, id))[s] == if s.id == id then 0 else multiset(steps)[s]
  {
    if steps != [] {
      WithoutStepCounts(steps[1..], id);
      assert steps == [steps[0]] + steps[1..];
    }
  }

  /** The filter keeps the order: filtering a concatenation filters each part. */
  lemma {:induction false} WithoutStepAppend(a: seq<EmailStep>, b: seq<EmailStep>, id: int)
    ensures WithoutStep(a + b, id) == WithoutStep(a, id) + WithoutStep(b, id)
  {
    if a != [] {
      var head := if a[0].id == id then [] else [a[0]];
      assert (a + b)[0] == a[0] && (a + b)[1..] == a[1..] + b;
      assert WithoutStep(a + b, id) == head + WithoutStep(a[1..] + b, id);
      WithoutStepAppend(a[1..], b, id);
      assert WithoutStep(a, id) == head + WithoutStep(a[1..], id);
    } else {
      assert a + b == b;
    }
  }

  /** With distinct ids, removing the id of step `p` leaves the steps before it
      followed by the steps after it, in their order. */
  lemma WithoutStepAt(steps: seq<EmailStep>, p: int)
    requires DistinctIds(steps)
    requires 0 <= p < |steps|
    ensures WithoutStep(steps, steps[p].id) == steps[..p] + steps[p + 1..]
  {
    var before, after := steps[..p], steps[p + 1..];
    forall k | 0 <= k < |before| ensures before[k].id != steps[p].id {
      assert before[k] == steps[k];
    }
    WithoutStepAbsent(before, steps[p].id);
    forall k | 0 <= k < |after| ensures after[k].id != steps[p].id {
      assert after[k] == steps[p + 1 + k];
    }
    WithoutStepAbsent(after, steps[p].id);
    SplitAt(steps, p);
    WithoutStepSplit(before, steps[p], after);
  }

  /** Removing the id of `x` from `before + [x] + after`, when the filter keeps
      all of `before` and `after`, leaves `before + after`. */
  lemma WithoutStepSplit(before: seq<EmailStep>, x: EmailStep, after: seq<EmailStep>)
    requires WithoutStep(before, x.id) == before
    requires WithoutStep(after, x.id) == after
    ensures WithoutStep(before + ([x] + after), x.id) == before + after
  {
    var id, m := x.id, [x] + after;
    assert WithoutStep(m, id) == after by {
      WithoutStepCons(x, after, id);
      assert [] + WithoutStep(after, id) == WithoutStep(after, id);
    }
    WithoutStepAppend(before, m, id);
  }

  /** One step of the filter: the head is dropped exactly when it has the id. */
  lemma WithoutStepCons(x: EmailStep, rest: seq<EmailStep>, id: int)
    ensures WithoutStep([x] + rest, id) == (if x.id == id then [] else [x]) + WithoutStep(rest, id)
  {
    var s := [x] + rest;
    assert s[0] == x && s[1..] == rest;
  }

  /** A sequence is the part before position `p`, the element there and the
      part after it. */
  lemma SplitAt<T>(s: seq<T>, p: int)
    requires 0 <= p < |s|
    ensures s == s[..p] + ([s[p]] + s[p + 1..])
  {
    assert s[p..] == [s[p]] + s[p + 1..];
    assert s == s[..p] + s[p..];
  }

  /** The builder's step list. */
  class Builder {
    var steps: seq<EmailStep>

    /** One to four steps with distinct ids. */
    predicate Valid()
      reads this
    {
      1 <= |steps| <= MaxSteps && DistinctIds(steps)
    }

    /** The initial list: `initialSteps` when there are any, else the default step. */
    constructor (initialSteps: seq<EmailStep>)
      ensures |initialSteps| > 0 ==> steps == initialSteps
      ensures |initialSteps| == 0 ==> steps == [DefaultStep]
      ensures |initialSteps| <= MaxSteps && DistinctIds(initialSteps) ==> Valid()
    {
      steps := if |initialSteps| > 0 then initialSteps else [DefaultStep];
    }

    /** The "Add Email" button's `disabled` rule. */
    predicate AddDisabled()
      reads this
    {
      |steps| >= MaxSteps
    }

    /** A step's remove button's `disabled` rule. */
    predicate RemoveDisabled()
      reads this
    {
      |steps| == 1
    }

    /** `addStep`: below four steps, appends an empty step with the next id and
        a one-day delay; at four or more, nothing changes. */
    method AddStep()
      modifies this
      ensures old(|steps|) < MaxSteps ==> steps == old(steps) + [EmailStep(MaxId(old(steps)) + 1, "", "", 1)]
      ensures old(|steps|) >= MaxSteps ==> steps == old(steps)
      ensures old(AddDisabled()) <==> steps == old(steps)
      ensures old(Valid()) ==> Valid()
    {
      if |steps| < MaxSteps {
        var step := EmailStep(MaxId(steps) + 1, "", "", 1);
        steps := steps + [step];
      }
    }

    /** `removeStep`: with more than one step, drops the steps with the id;
        with one, nothing changes. On a valid list this cuts out the one step
        with the id and keeps the others in order. Each remove button passes
        the id of its own step, and it is disabled exactly when the call would
        change nothing. */
    method RemoveStep(id: int)
      modifies this
      ensures old(|steps|) > 1 ==> steps == WithoutStep(old(steps), id)
      ensures old(|steps|) <= 1 ==> steps == old(steps)
      ensures old(RemoveDisabled()) ==> steps == old(steps)
      ensures old(Valid()) ==> forall p :: 0 <= p < old(|steps|) && old(steps)[p].id == id ==>
        (old(RemoveDisabled()) <==> steps == old(steps))
      ensures old(Valid()) ==> Valid()
      ensures old(Valid()) && old(|steps|) > 1 ==>
        forall p :: 0 <= p < old(|steps|) && old(steps)[p].id == id ==>
          steps == old(steps)[..p] + old(steps)[p + 1..]
    {
      if |steps| > 1 {
        if DistinctIds(steps) {
          WithoutStepDistinct(steps, id);
          forall p | 0 <= p < |steps| && steps[p].id == id
            ensures WithoutStep(steps, id) == steps[..p] + steps[p + 1..]
          {
            WithoutStepAt(steps, p);
          }
        }
        steps := WithoutStep(steps, id);
      }
    }

    /** `updateStep`: sets one field of the steps with the id. */
    method UpdateStep(id: int, f: StepField)
      modifies this
      ensures steps == UpdateById(old(steps), id, f)
      ensures old(Valid()) ==> Valid()
    {
      steps := UpdateById(steps, id, f);
    }

    /** `handleSave`: hands the current list over as it is. */
    method Save() returns (saved: seq<EmailStep>)
      ensures saved == steps
    {
      saved := steps;
    }
  }
}
