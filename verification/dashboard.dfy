/**
 * The dashboard's lead store and activity log. Every handler replaces the
 * component's state with a list built by `map`, `filter` or `find`; those list
 * operations are the functions below, and `DashboardState` holds the state the
 * handlers replace. `Date.now()` ids are passed in as parameters.
 */
module Dashboard {
  import opened Wrappers
  import opened LeadCard

  /** The four kinds of activity (`Activity.action`). */
  datatype Action = ClaimedLead | EmailedLead | UpdatedLead | DeletedLead {
    function Name(): string {
      match this
      case ClaimedLead => "claimed"
      case EmailedLead => "emailed"
      case UpdatedLead => "updated"
      case DeletedLead => "deleted"
    }
  }

  /** One entry of the activity log. */
  datatype Activity = Activity(id: string, action: Action, userName: string, leadName: string,
                               timestamp: string)

  /** The ids of `leads`, in order. */
  function Ids(leads: seq<Lead>): (ids: seq<string>)
    ensures |ids| == |leads|
    ensures forall k :: 0 <= k < |leads| ==> ids[k] == leads[k].id
  {
    seq(|leads|, k requires 0 <= k < |leads| => leads[k].id)
  }

  /** A `string | null` state value is truthy: present and not "". */
  predicate Truthy(s: Option<string>) {
    s.Some? && s.value != ""
  }

  // ---------------------------------------------------------------------------
  // The list operations

  /** `leads.map(l => l.id === id ? { ...input, id } : l)`: every record with
      the id takes the submitted fields and keeps its id; the others are kept. */
  function ReplaceById(leads: seq<Lead>, id: string, input: LeadInput): (r: seq<Lead>)
    ensures |r| == |leads| && Ids(r) == Ids(leads)
    ensures forall k :: 0 <= k < |leads| && leads[k].id == id ==> r[k] == WithId(input, id)
    ensures forall k :: 0 <= k < |leads| && leads[k].id != id ==> r[k] == leads[k]
  {
    if leads == [] then []
    else [if leads[0].id == id then WithId(input, id) else leads[0]] + ReplaceById(leads[1..], id, input)
  }

  /** `leads.map(l => l.id === id ? { ...l, owner, status: "claimed" } : l)`:
      matching records get the owner and the claimed status and keep their id,
      name, email and phone; the others are kept. */
  function ClaimById(leads: seq<Lead>, id: string, username: string): (r: seq<Lead>)
    ensures |r| == |leads| && Ids(r) == Ids(leads)
    ensures forall k :: 0 <= k < |leads| ==>
              r[k].name == leads[k].name && r[k].email == leads[k].email && r[k].phone == leads[k].phone
    ensures forall k :: 0 <= k < |leads| && leads[k].id == id ==>
              r[k].owner == Some(username) && r[k].status == Claimed
    ensures forall k :: 0 <= k < |leads| && leads[k].id != id ==> r[k] == leads[k]
  {
    if leads == [] then []
    else
      var head := if leads[0].id == id then leads[0].(owner := Some(username), status := Claimed) else leads[0];
      [head] + ClaimById(leads[1..], id, username)
  }

  /** `leads.filter(l => l.id !== id)`: no record with the id is left. */
  function RemoveById(leads: seq<Lead>, id: string): (r: seq<Lead>)
    ensures |r| <= |leads|
    ensures id !in Ids(r)
  {
    if leads == [] then []
    else
      var r := (if leads[0].id == id then [] else [leads[0]]) + RemoveById(leads[1..], id);
      assert forall k :: 0 <= k < |r| ==> Ids(r)[k] == r[k].id;
      r
  }

  /** Each record with another id is kept as often as it occurred. */
  lemma {:induction false} RemoveByIdCounts(leads: seq<Lead>, id: string)
    ensures forall l :: multiset(RemoveById(leads, id))[l] == if l.id == id then 0 else multiset(leads)[l]
  {
    if leads != [] {
      RemoveByIdCounts(leads[1..], id);
      assert leads == [leads[0]] + leads[1..];
    }
  }

  /** `leads.find(l => l.id === id)`: the first record with the id. */
  function FindById(leads: seq<Lead>, id: string): (r: Option<Lead>)
    ensures r.None? <==> id !in Ids(leads)
    ensures r.Some? ==> exists k :: 0 <= k < |leads| && leads[k] == r.value
                                    && forall j :: 0 <= j < k ==> leads[j].id != id
    ensures r.Some? ==> r.value.id == id
  {
    if leads == [] then None
    else if leads[0].id == id then Some(leads[0])
    else
      var r := FindById(leads[1..], id);
      assert Ids(leads) == [leads[0].id] + Ids(leads[1..]);
      if r.Some? then
        var k :| 0 <= k < |leads[1..]| && leads[1..][k] == r.value
                 && forall j :: 0 <= j < k ==> leads[1..][j].id != id;
        assert leads[k + 1] == r.value;
        r
      else r
  }

  /** The filter keeps the order: filtering a concatenation filters each part. */
  lemma {:induction false} RemoveByIdAppend(a: seq<Lead>, b: seq<Lead>, id: string)
    ensures RemoveById(a + b, id) == RemoveById(a, id) + RemoveById(b, id)
  {
    if a != [] {
      var head := if a[0].id == id then [] else [a[0]];
      assert (a + b)[0] == a[0] && (a + b)[1..] == a[1..] + b;
      assert RemoveById(a + b, id) == head + RemoveById(a[1..] + b, id);
      RemoveByIdAppend(a[1..], b, id);
      assert RemoveById(a, id) == head + RemoveById(a[1..], id);
    } else {
      assert a + b == b;
    }
  }

  /** Removing an id no record has changes nothing. */
  lemma {:induction false} RemoveAbsent(leads: seq<Lead>, id: string)
    requires id !in Ids(leads)
    ensures RemoveById(leads, id) == leads
  {
    if leads != [] {
      assert Ids(leads[1..]) == Ids(leads)[1..];
      RemoveAbsent(leads[1..], id);
    }
  }

  /** Claiming an id no record has changes nothing. */
  lemma ClaimAbsent(leads: seq<Lead>, id: string, username: string)
    requires id !in Ids(leads)
    ensures ClaimById(leads, id, username) == leads
  {
    var r := ClaimById(leads, id, username);
    forall k | 0 <= k < |leads| ensures r[k] == leads[k] {
      assert Ids(leads)[k] == leads[k].id;
    }
  }

  /** Ids stay pairwise distinct. */
  predicate UniqueIds(leads: seq<Lead>) {
    forall i, j :: 0 <= i < j < |leads| ==> leads[i].id != leads[j].id
  }

  /** The activity a successful claim records. */
  function ClaimActivity(activityId: string, username: string, lead: Lead): (a: Activity)
    ensures a.action == ClaimedLead && a.action.Name() == "claimed"
    ensures a.userName == username && a.leadName == lead.name && a.timestamp == "Just now"
  {
    Activity(activityId, ClaimedLead, username, lead.name, "Just now")
  }

  // ---------------------------------------------------------------------------
  // The component state

  class DashboardState {
    var leads: seq<Lead>
    var activities: seq<Activity>
    var editLead: Option<Lead>
    var pendingClaimId: Option<string>
    var usernamePromptOpen: bool
    var addLeadOpen: bool

    constructor (leads: seq<Lead>, activities: seq<Activity>)
      ensures this.leads == leads && this.activities == activities
      ensures editLead.None? && pendingClaimId.None? && !usernamePromptOpen && !addLeadOpen
    {
      this.leads := leads;
      this.activities := activities;
      editLead := None;
      pendingClaimId := None;
      usernamePromptOpen := false;
      addLeadOpen := false;
    }

    /** The "Total Leads" stat. */
    function TotalLeads(): (n: nat)
      reads this
      ensures n == |leads|
    {
      |leads|
    }

    /** `handleAddLead`: appends the submitted lead under the new id. Earlier
        records are untouched; a fresh id keeps the ids distinct. */
    method AddLead(input: LeadInput, freshId: string)
      modifies this`leads
      ensures leads == old(leads) + [WithId(input, freshId)]
      ensures TotalLeads() == old(TotalLeads()) + 1
      ensures UniqueIds(old(leads)) && freshId !in Ids(old(leads)) ==> UniqueIds(leads)
    {
      leads := leads + [WithId(input, freshId)];
    }

    /** `handleEditLead`: remembers the lead and opens the form. */
    method EditLead(lead: Lead)
      modifies this`editLead, this`addLeadOpen
      ensures editLead == Some(lead) && addLeadOpen
    {
      editLead := Some(lead);
      addLeadOpen := true;
    }

    /** The "Add Lead" button: forgets any edit target and opens the form. */
    method OpenAddLead()
      modifies this`editLead, this`addLeadOpen
      ensures editLead.None? && addLeadOpen
    {
      editLead := None;
      addLeadOpen := true;
    }

    /** The form's `onOpenChange`. The edit target is kept. */
    method SetAddLeadOpen(open: bool)
      modifies this`addLeadOpen
      ensures addLeadOpen == open
    {
      addLeadOpen := open;
    }

    /** `handleUpdateLead`: with an edit target, replaces the records with its
        id and clears the target; without one nothing happens. */
    method UpdateLead(input: LeadInput)
      modifies this`leads, this`editLead
      ensures old(editLead).Some? ==> leads == ReplaceById(old(leads), old(editLead).value.id, input)
                                      && editLead.None?
      ensures old(editLead).None? ==> leads == old(leads) && editLead == old(editLead)
      ensures TotalLeads() == old(TotalLeads())
    {
      if editLead.Some? {
        leads := ReplaceById(leads, editLead.value.id, input);
        editLead := None;
      }
    }

    /** The form's `onSubmit`: an update when there is an edit target, an add
        otherwise. */
    method SubmitLeadForm(input: LeadInput, freshId: string)
      modifies this`leads, this`editLead
      ensures old(editLead).Some? ==> leads == ReplaceById(old(leads), old(editLead).value.id, input)
                                      && editLead.None?
      ensures old(editLead).None? ==> leads == old(leads) + [WithId(input, freshId)] && editLead.None?
    {
      if editLead.Some? {
        UpdateLead(input);
      } else {
        AddLead(input, freshId);
      }
    }

    /** `handleDeleteLead`: filters the id out and answers the lead the toast
        names, if there was one. An absent id changes nothing and shows no toast. */
    method DeleteLead(id: string) returns (toast: Option<Lead>)
      modifies this`leads
      ensures leads == RemoveById(old(leads), id) && id !in Ids(leads)
      ensures toast == FindById(old(leads), id)
      ensures toast.None? ==> leads == old(leads)
    {
      toast := FindById(leads, id);
      if toast.None? {
        RemoveAbsent(leads, id);
      }
      leads := RemoveById(leads, id);
    }

    /** `handleClaimLead`: remembers the id and opens the name prompt. */
    method ClaimLead(id: string)
      modifies this`pendingClaimId, this`usernamePromptOpen
      ensures pendingClaimId == Some(id) && usernamePromptOpen
    {
      pendingClaimId := Some(id);
      usernamePromptOpen := true;
    }

    /** `handleUsernameSubmit`: with a truthy pending id, claims the matching
        records for `username`, prepends one "claimed" activity when a record
        matched, and clears the pending id; the prompt closes in every case. */
    method UsernameSubmit(username: string, activityId: string)
      modifies this`leads, this`activities, this`pendingClaimId, this`usernamePromptOpen
      ensures !usernamePromptOpen
      ensures Truthy(old(pendingClaimId)) ==>
        var id := old(pendingClaimId).value;
        && leads == ClaimById(old(leads), id, username)
        && pendingClaimId.None?
        && (FindById(old(leads), id).Some? ==>
              activities == [ClaimActivity(activityId, username, FindById(old(leads), id).value)] + old(activities))
        && (id !in Ids(old(leads)) ==> leads == old(leads) && activities == old(activities))
      ensures !Truthy(old(pendingClaimId)) ==>
        leads == old(leads) && activities == old(activities) && pendingClaimId == old(pendingClaimId)
    {
      if Truthy(pendingClaimId) {
        var id := pendingClaimId.value;
        var lead := FindById(leads, id);
        if lead.None? {
          ClaimAbsent(leads, id, username);
        }
        leads := ClaimById(leads, id, username);
        if lead.Some? {
          activities := [ClaimActivity(activityId, username, lead.value)] + activities;
        }
        pendingClaimId := None;
      }
      usernamePromptOpen := false;
    }

    /** The prompt's `onCancel`: closes it and forgets the pending id; the
        leads are untouched. */
    method CancelPrompt()
      modifies this`usernamePromptOpen, this`pendingClaimId
      ensures !usernamePromptOpen && pendingClaimId.None?
    {
      usernamePromptOpen := false;
      pendingClaimId := None;
    }
  }
}
