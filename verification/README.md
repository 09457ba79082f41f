# Lead dashboard and email sequences — a Dafny model

This project models the logic of a small lead-management application in
Dafny and proves properties of it. The application has two halves that never
talk to each other: every request the web client sends goes to a placeholder
HTTP endpoint. The project therefore holds two independent models.

**The web client** (React, TypeScript):
- the dashboard's lead list and activity feed, with add, edit, delete and
  claim-by-name (`DashboardState`);
- the add/edit lead form and its validator (`LeadFormDialog`);
- the claim-name prompt (`NamePrompt`);
- the lead table's sort state and ordering (`Table`), and lead-card
  initials and button gating;
- the sequences page (`SequencesPage`):
  - status changes;
  - saving a sequence, which schedules one webhook call per step at
    `idx * 10000` ms;
  - the deep link that opens the builder;
  - the stats;
- the sequence card's buttons, which make up the status state machine
  (`SequenceCard.Transitions`);
- the step editor of the sequence builder (`Builder`, 1 to 4 steps with
  distinct ids).

**The server** (Python, SQLite):
- the tables of its data layer as one `Database` object:
  - `leads` and `sequences` are maps keyed by AUTOINCREMENT ids, with the
    next-id counters (an `INSERT OR IGNORE` that is ignored still uses up
    an id, so lead ids can have gaps);
  - `sequence_steps`, `sequence_leads` and `activity_log` are sequences in
    rowid order;
- one pass of the background worker;
- the route handlers and their 404/400 mapping;
- the webhook's check of an untyped JSON body.

Component state that the source replaces through setters becomes a class
whose methods assign its fields. Each handler is one atomic transition. The
new lists are built by pure functions (`ReplaceById`, `ClaimById`,
`RemoveById`, `SetStatus`, `WithoutStep`, `UpdateById`). The proofs about
those functions carry the weight. Timers, `Date.now()` ids and `utcnow()`
timestamps are parameters. Loops in the source (the scheduling `forEach`,
SQL scans, the worker's nested `for`s, `validateForm`'s step-by-step error
record) are methods with loop invariants. Each is proved against a
specification function.

Where the documented behaviour of the product and the code differ, the model
follows the code:
- The client stores never fail. Updating, deleting, claiming or changing the
  status of an unknown id leaves the list as it was, because `map` and
  `filter` find nothing. No "not found" error is raised.
- The status handlers have no guard. However, a card never offers a button
  that leads back to the status a sequence already has
  (`SequenceCard.Transitions`). In particular, Start is offered only on a
  stopped sequence.
- `delayDays` is edited in the builder but never read: every step is
  scheduled `idx * 10000` ms after saving (`Sequences.PlanIgnoresDelay`).
- The builder's new id is `Math.max` of the ids plus one. The maximum of an
  empty list is taken as 0. This never arises, since the builder always
  holds a step.
- The lead form never shows the lead being edited. The dashboard renders the
  dialog once, with no edit target. `useState` computes the first form only at
  that mount, and a later `editLead` prop does not reach it. After Edit the
  form therefore holds what it held before (`AddLeadDialog.EditAfterMount`).
  That is the empty form after a submit or the Cancel button. After Escape or
  a click outside, the dialog closes through `onOpenChange` alone, and the form
  keeps what was typed (`AddLeadDialog.DismissThenEdit`). Submitting it still
  replaces the lead being edited, with the owner taken from the current prop.
- JavaScript truthiness is modelled where the code tests a string:
  - an empty owner counts as no owner;
  - an empty pending claim id counts as none;
  - an empty recipient counts as missing;
  - empty query values are ignored.

On the server, `resume` sets a sequence back to "scheduled" whatever its
status was. A sequence that was already sent is therefore due again, and the
next worker pass logs its sends a second time (`BackendApi.ResumeSequence`).

## Model

| member | source | states |
|---|---|---|
| Text.Trim | frontend/client/src/components/AddLeadDialog.tsx:38 | `trim()` returns the input from `TrimIndex` on with only white space cut off before and after, and the result neither starts nor ends with white space; it is empty exactly when the input is all white space |
| Text.TrimmedUnique | frontend/client/src/components/AddLeadDialog.tsx:38 | only one string is the input with white space cut off at both ends and none left at either end |
| Text.TrimExact | frontend/client/src/components/UsernamePromptDialog.tsx:27 | any such string is exactly what `Trim` returns |
| Text.TrimIdempotent | frontend/client/src/components/UsernamePromptDialog.tsx:26-27 | trimming the trimmed name changes nothing |
| Text.Upper | frontend/client/src/components/LeadCard.tsx:29 | `toUpperCase()` keeps the length and maps each character by the letter case rule |
| Text.StrLessIrreflexive | frontend/client/src/components/LeadTable.tsx:36 | no string is `>` itself |
| Text.StrLessTransitive | frontend/client/src/components/LeadTable.tsx:36 | string order is transitive |
| Text.StrLessTotal | frontend/client/src/components/LeadTable.tsx:36 | two different strings are ordered one way or the other |
| Text.StrLessAsymmetric | frontend/client/src/components/LeadTable.tsx:36 | two strings are never ordered both ways |
| Text.SplitSpaces | frontend/client/src/components/LeadCard.tsx:26 | `split(" ")` gives at least one piece, and no piece contains a space |
| Text.SplitJoin | frontend/client/src/components/LeadCard.tsx:26 | joining the pieces of `split(" ")` with spaces gives back the name |
| Url.Get | frontend/client/src/pages/Sequences.tsx:29-30 | `params.get` is None exactly when no parameter has the key, else it returns a value stored under that key |
| Sorting.SortBy | frontend/client/src/components/LeadTable.tsx:32 | the sorted copy has the same elements with the same multiplicities |
| Sorting.SortBySorted | frontend/client/src/components/LeadTable.tsx:32-37 | under a total preorder the copy is sorted |
| LeadCard.WithId | frontend/client/src/pages/Dashboard.tsx:99-102 | the new record is the submitted fields with the given id |
| LeadCard.ClaimOffered | frontend/client/src/components/LeadCard.tsx:71 | Claim is shown exactly when there is a claim handler and the owner is absent or the empty string; the table's Claim button (LeadTable.tsx line 128) follows the same rule |
| LeadCard.OwnerLine | frontend/client/src/components/LeadCard.tsx:45-49 | the owner line is shown exactly when the owner is a non-empty string, and reads "Owner: " followed by it |
| LeadCard.Initials | frontend/client/src/components/LeadCard.tsx:25-30 | the initials are the upper-cased first characters of the space-separated words, at most two; the table (LeadTable.tsx lines 85-90) uses the same rule |
| LeadCard.FirstCharsOfSplit | frontend/client/src/components/LeadCard.tsx:25-28 | mapping the words to their first characters picks exactly the characters that begin a word; empty words add nothing |
| LeadCard.CreateSequenceLink | frontend/client/src/components/LeadCard.tsx:118 | the link goes to `/sequences` with `newSequence=1` and `to` set to the email |
| LeadTable.NextSort | frontend/client/src/components/LeadTable.tsx:23-30 | a click makes the field current; it flips the order on the current field, and sets ascending on another field |
| LeadTable.NextSortTwice | frontend/client/src/components/LeadTable.tsx:23-30 | two clicks on the current field restore the state |
| LeadTable.Table.constructor | frontend/client/src/components/LeadTable.tsx:20-21 | the table starts on name, ascending |
| LeadTable.Table.HandleSort | frontend/client/src/components/LeadTable.tsx:23-30 | the click's two setters produce the state `NextSort` gives |
| LeadTable.Compare | frontend/client/src/components/LeadTable.tsx:32-37 | the comparator never answers 0; a negative answer puts `a` first only when the order allows it, and a positive one puts `b` first only when the order allows it |
| LeadTable.MayPrecedeTotalPreorder | frontend/client/src/components/LeadTable.tsx:32-37 | "may come first" on a column, in either direction, is a total preorder |
| LeadTable.SortedLeads | frontend/client/src/components/LeadTable.tsx:32-37 | the rows are a permutation of the leads, sorted on the chosen column and direction |
| LeadTable.SortedStrictly | frontend/client/src/components/LeadTable.tsx:32-37 | with pairwise different keys the rows strictly increase (ascending) or strictly decrease (descending) |
| LeadTable.DistinctKeysSurvive | frontend/client/src/components/LeadTable.tsx:32 | two positions of the sorted copy hold two different leads, so their keys differ when the leads' keys do |
| AddLeadDialog.InitialForm | frontend/client/src/components/AddLeadDialog.tsx:18-23 | the form computed at mount: empty with status active without an edit target, else that lead's fields |
| AddLeadDialog.IndexOf | frontend/client/src/components/AddLeadDialog.tsx:44 | the first position of a character, or -1 exactly when the character is absent |
| AddLeadDialog.EmailFormatIsPattern | frontend/client/src/components/AddLeadDialog.tsx:44 | the executable check agrees with the regular expression `^[^\s@]+@[^\s@]+\.[^\s@]+$` on every string |
| AddLeadDialog.RequiredError | frontend/client/src/components/AddLeadDialog.tsx:38-50 | the name and the phone each get their "is required" message exactly when blank, and no error otherwise |
| AddLeadDialog.EmailError | frontend/client/src/components/AddLeadDialog.tsx:42-46 | "Email is required" exactly when blank; "Invalid email format" exactly when not blank and not matching; no error exactly when it matches |
| AddLeadDialog.ValidIffFieldsOk | frontend/client/src/components/AddLeadDialog.tsx:52-53 | the form is valid exactly when the name and phone are not blank and the email matches |
| AddLeadDialog.LeadFormDialog.constructor | frontend/client/src/components/AddLeadDialog.tsx:17-29 | mounting: the form is `InitialForm` of the `editLead` prop at that moment, with no errors, and the dialog is open exactly when the `open` prop says so |
| AddLeadDialog.LeadFormDialog.SetEditLead | frontend/client/src/pages/Dashboard.tsx:328-333 | a new `editLead` prop changes the prop only; form, errors and open state stay |
| AddLeadDialog.EditAfterMount | frontend/client/src/pages/Dashboard.tsx:124-127 | mounted with no edit target and then given a lead, the dialog shows the empty form, not that lead's fields |
| AddLeadDialog.LeadFormDialog.ValidateForm | frontend/client/src/components/AddLeadDialog.tsx:31-54 | stores the three field errors and answers true exactly when all are empty, i.e. when the form is valid |
| AddLeadDialog.LeadFormDialog.HandleSubmit | frontend/client/src/components/AddLeadDialog.tsx:56-64 | submits exactly on a valid form: the fields plus the owner of the current `editLead` prop; then the form resets and the dialog closes; otherwise the form stays and the three messages `validateForm` computed are stored |
| AddLeadDialog.LeadFormDialog.HandleClose | frontend/client/src/components/AddLeadDialog.tsx:66-70 | the Cancel button resets the form and errors and closes; the `editLead` prop is untouched |
| AddLeadDialog.LeadFormDialog.Dismiss | frontend/client/src/components/AddLeadDialog.tsx:73 | Escape or a click outside closes the dialog and leaves the form, the errors and the prop as they were |
| AddLeadDialog.ApplyEdit | frontend/client/src/components/AddLeadDialog.tsx:89 | an input's change sets its own field and leaves the other three as they were |
| AddLeadDialog.LeadFormDialog.Change | frontend/client/src/components/AddLeadDialog.tsx:134 | typing or choosing a status changes only the form, by `ApplyEdit` |
| AddLeadDialog.DismissThenEdit | frontend/client/src/pages/Dashboard.tsx:124-127 | text typed before Escape is still in the form when Edit is chosen on a lead |
| UsernamePrompt.SubmittedName | frontend/client/src/components/UsernamePromptDialog.tsx:26-27 | a name is submitted exactly when not blank; it is the input with only white space cut off at both ends, non-empty and with no white space at its ends |
| UsernamePrompt.DisabledIffNoSubmit | frontend/client/src/components/UsernamePromptDialog.tsx:67 | the submit button is disabled exactly when submitting would do nothing |
| UsernamePrompt.OpenChange | frontend/client/src/components/UsernamePromptDialog.tsx:33 | closing the dialog cancels, and never submits |
| UsernamePrompt.NamePrompt.constructor | frontend/client/src/components/UsernamePromptDialog.tsx:22 | the field starts empty |
| UsernamePrompt.NamePrompt.Type | frontend/client/src/components/UsernamePromptDialog.tsx:48 | typing sets the field |
| UsernamePrompt.NamePrompt.Submit | frontend/client/src/components/UsernamePromptDialog.tsx:24-30 | submits the trimmed name exactly when not blank and clears the field; otherwise the field is unchanged |
| UsernamePrompt.NamePrompt.Cancel | frontend/client/src/components/UsernamePromptDialog.tsx:60 | the Cancel button cancels |
| Dashboard.ReplaceById | frontend/client/src/pages/Dashboard.tsx:131 | same length and ids; records with the id take the submitted fields, the others are unchanged |
| Dashboard.ClaimById | frontend/client/src/pages/Dashboard.tsx:190-194 | same length and ids; matching records get the owner and the claimed status, keeping name, email and phone; the others are unchanged |
| Dashboard.RemoveById | frontend/client/src/pages/Dashboard.tsx:159 | no record with the id is left, and none is added |
| Dashboard.RemoveByIdCounts | frontend/client/src/pages/Dashboard.tsx:159 | every record with another id is kept as many times as it occurred |
| Dashboard.RemoveByIdAppend | frontend/client/src/pages/Dashboard.tsx:159 | the filter keeps the order: filtering a concatenation filters each part |
| Dashboard.RemoveAbsent | frontend/client/src/pages/Dashboard.tsx:157-167 | deleting an absent id leaves the list as it was |
| Dashboard.FindById | frontend/client/src/pages/Dashboard.tsx:158 | the first record with the id, None exactly when there is none |
| Dashboard.ClaimAbsent | frontend/client/src/pages/Dashboard.tsx:189-194 | claiming an absent id leaves the list as it was |
| Dashboard.DashboardState.constructor | frontend/client/src/pages/Dashboard.tsx:98 | initial lists, no edit target, no pending claim, dialogs closed |
| Dashboard.DashboardState.TotalLeads | frontend/client/src/pages/Dashboard.tsx:236 | the Total Leads stat is the length of the list |
| Dashboard.DashboardState.AddLead | frontend/client/src/pages/Dashboard.tsx:98-103 | appends exactly the new record; one more lead; ids stay unique when the fresh id is new |
| Dashboard.DashboardState.EditLead | frontend/client/src/pages/Dashboard.tsx:124-127 | sets the edit target and opens the form |
| Dashboard.DashboardState.OpenAddLead | frontend/client/src/pages/Dashboard.tsx:287-290 | clears the edit target and opens the form |
| Dashboard.DashboardState.SetAddLeadOpen | frontend/client/src/pages/Dashboard.tsx:331 | the form's open state follows the dialog |
| Dashboard.DashboardState.UpdateLead | frontend/client/src/pages/Dashboard.tsx:129-132 | with an edit target, replaces the records with its id and clears the target; without one, nothing changes; the count never changes |
| Dashboard.DashboardState.SubmitLeadForm | frontend/client/src/pages/Dashboard.tsx:332 | the form's submission updates when there is an edit target and adds otherwise |
| Dashboard.DashboardState.DeleteLead | frontend/client/src/pages/Dashboard.tsx:157-167 | filters the id out; the toast names the lead that was found; an absent id changes nothing and shows no toast |
| Dashboard.DashboardState.ClaimLead | frontend/client/src/pages/Dashboard.tsx:182-185 | remembers the id and opens the prompt |
| Dashboard.DashboardState.UsernameSubmit | frontend/client/src/pages/Dashboard.tsx:187-214 | with a pending id: claims the matching records, prepends one activity when a record matched, and clears the id; an absent id changes neither list; without a pending id nothing changes; the prompt always closes |
| Dashboard.DashboardState.CancelPrompt | frontend/client/src/pages/Dashboard.tsx:339-342 | closes the prompt and clears the pending id; the leads are untouched |
| SequenceCard.Label | frontend/client/src/components/SequenceCard.tsx:21-34 | the label is the status name with its first letter capitalised |
| SequenceCard.Buttons | frontend/client/src/components/SequenceCard.tsx:68-118 | Start only on stopped, Pause only on active, Resume only on paused, Stop on all but stopped, each only with its handler |
| SequenceCard.Successors | frontend/client/src/components/SequenceCard.tsx:68-118 | no button leaves a sequence in its current status |
| SequenceCard.Transitions | frontend/client/src/pages/Sequences.tsx:72-107 | with the page's handlers the only transitions are active→paused, active→stopped, paused→active, paused→stopped and stopped→active |
| SequenceBuilder.MaxId | frontend/client/src/components/EmailSequenceBuilder.tsx:31 | the largest step id: no id exceeds it, and a non-empty list contains it |
| SequenceBuilder.WithoutStep | frontend/client/src/components/EmailSequenceBuilder.tsx:38 | no step with the id is left; the others come from the list |
| SequenceBuilder.SetField | frontend/client/src/components/EmailSequenceBuilder.tsx:43 | only the named field changes |
| SequenceBuilder.UpdateById | frontend/client/src/components/EmailSequenceBuilder.tsx:42-44 | same length, ids and order; only the steps with the id have their field changed |
| SequenceBuilder.WithoutStepDistinct | frontend/client/src/components/EmailSequenceBuilder.tsx:36-40 | with distinct ids the filter drops at most one step and keeps the ids distinct |
| SequenceBuilder.WithoutStepAbsent | frontend/client/src/components/EmailSequenceBuilder.tsx:38 | filtering an absent id keeps every step |
| SequenceBuilder.WithoutStepCounts | frontend/client/src/components/EmailSequenceBuilder.tsx:38 | every step with another id is kept as many times as it occurred; steps with the id are gone |
| SequenceBuilder.WithoutStepAppend | frontend/client/src/components/EmailSequenceBuilder.tsx:38 | the filter keeps the order: filtering a concatenation filters each part |
| SequenceBuilder.WithoutStepAt | frontend/client/src/components/EmailSequenceBuilder.tsx:36-40 | with distinct ids, removing the id of step p leaves the steps before it followed by those after it |
| SequenceBuilder.Builder.constructor | frontend/client/src/components/EmailSequenceBuilder.tsx:23-27 | starts on the given steps, or on one empty step with id 1 and delay 0 |
| SequenceBuilder.Builder.AddStep | frontend/client/src/components/EmailSequenceBuilder.tsx:29-34 | below four steps, appends an empty step with id max+1 and delay 1; the list changes exactly when the Add button is not disabled; the 1 to 4 distinct-ids invariant is kept |
| SequenceBuilder.Builder.AddDisabled | frontend/client/src/components/EmailSequenceBuilder.tsx:56 | the Add button's rule; `AddStep` changes nothing exactly when it holds |
| SequenceBuilder.Builder.RemoveStep | frontend/client/src/components/EmailSequenceBuilder.tsx:36-40 | with more than one step, filters the id out, which on a valid list cuts out the step with the id and keeps the others in order; for the id of a step in the list, the list changes exactly when the remove button is not disabled; the invariant is kept |
| SequenceBuilder.Builder.RemoveDisabled | frontend/client/src/components/EmailSequenceBuilder.tsx:79 | a remove button's rule; on a valid list `RemoveStep` with that step's id changes nothing exactly when it holds |
| SequenceBuilder.Builder.UpdateStep | frontend/client/src/components/EmailSequenceBuilder.tsx:42-44 | applies `UpdateById`; the invariant is kept |
| SequenceBuilder.Builder.Save | frontend/client/src/components/EmailSequenceBuilder.tsx:46-48 | hands over the steps unchanged |
| Sequences.SetStatus | frontend/client/src/pages/Sequences.tsx:72-107 | same length; matching sequences take the status whatever they had; the others are unchanged |
| Sequences.ActiveCount | frontend/client/src/pages/Sequences.tsx:207 | the Active stat never exceeds the number of sequences |
| Sequences.StatsAppend | frontend/client/src/pages/Sequences.tsx:207-221 | both stats add up over concatenated lists |
| Sequences.SetStatusStats | frontend/client/src/pages/Sequences.tsx:221 | a status change never changes Leads Enrolled; starting never lowers Active, and pausing or stopping never raises it |
| Sequences.PlanShape | frontend/client/src/pages/Sequences.tsx:128-141 | first offset 0, offsets strictly increasing; each payload has the recipient, the step's subject and body, the sequence id and the 1-based step number |
| Sequences.PlanIgnoresDelay | frontend/client/src/pages/Sequences.tsx:131 | steps differing only in delays and ids get the same schedule |
| Sequences.Schedule | frontend/client/src/pages/Sequences.tsx:128-133 | the `forEach` loop registers exactly `Plan` |
| Sequences.Fire | frontend/client/src/pages/Sequences.tsx:143-163 | "Sending" and then exactly one outcome: queued iff ok, failed iff a non-ok response, error iff the call threw |
| Sequences.DeepLinkRecipient | frontend/client/src/pages/Sequences.tsx:29-34 | a recipient exactly when `newSequence` and `to` are both non-empty; it is the `to` value |
| Sequences.CreateSequenceLinkAccepted | frontend/client/src/components/LeadCard.tsx:118 | the card's link opens the builder for exactly that email, unless the email is empty |
| Sequences.NewSequence | frontend/client/src/pages/Sequences.tsx:116-122 | the record: "Sequence for " + recipient, one email per step, active, one lead |
| Sequences.SequencesPage.constructor | frontend/client/src/pages/Sequences.tsx:20 | initial list, builder closed, no recipient |
| Sequences.SequencesPage.Start | frontend/client/src/pages/Sequences.tsx:72-82 | applies `SetStatus` with active |
| Sequences.SequencesPage.Pause | frontend/client/src/pages/Sequences.tsx:84-94 | applies `SetStatus` with paused |
| Sequences.SequencesPage.Stop | frontend/client/src/pages/Sequences.tsx:96-107 | applies `SetStatus` with stopped |
| Sequences.SequencesPage.SetRecipient | frontend/client/src/pages/Sequences.tsx:256 | the field sets the recipient |
| Sequences.SequencesPage.SetBuilderOpen | frontend/client/src/pages/Sequences.tsx:124 | the builder's open state |
| Sequences.SequencesPage.ApplyDeepLink | frontend/client/src/pages/Sequences.tsx:26-35 | with an accepted link, sets the recipient and opens the builder; otherwise nothing changes |
| Sequences.SequencesPage.SaveSequence | frontend/client/src/pages/Sequences.tsx:109-168 | no recipient: nothing added or scheduled; else appends the new record, closes the builder and schedules `Plan` |
| Json.Lookup | backend/main.py:127-131 | `dict.get`: None exactly when the key is absent, else its value |
| BackendDb.DescEntriesShape | backend/db.py:110 | `ORDER BY id DESC` lists every row exactly, ids strictly decreasing |
| BackendDb.DueIdsShape | backend/db.py:276-279 | the selection is exactly the scheduled rows whose time is set and not after `now`, in increasing id order |
| BackendDb.StepsOf | backend/db.py:231 | only steps of the sequence, all from the table |
| BackendDb.LeadIdsOf | backend/db.py:294-300 | a lead id is listed exactly when a link joins it to the sequence |
| BackendDb.LinksWithoutLead | backend/db.py:161 | exactly the links of other leads remain |
| BackendDb.StepOrderTotal | backend/db.py:231 | ordering by `step_index` is a total preorder |
| BackendDb.LinksFor | backend/db.py:268-270 | one link per given id, in order, duplicates kept |
| BackendDb.Recent | backend/db.py:312-318 | at most 200 entries, the newest first |
| BackendDb.RecentAfterAppend | backend/db.py:303-309 | a new entry heads the next listing; below the limit the listing just gains it in front |
| BackendDb.Database.constructor | backend/db.py:15-89 | a fresh database: every table empty |
| BackendDb.Database.LogActivity | backend/db.py:303-309 | appends one record and changes nothing else |
| BackendDb.Database.ListActivity | backend/db.py:312-318 | the newest min(200, size of the log) records, newest first |
| BackendDb.Database.FindIdByEmail | backend/db.py:100-101 | the lead holding the email, None exactly when none does |
| BackendDb.Database.InsertLead | backend/db.py:92-104 | a known email returns the existing id and adds nothing; a new email adds one row under the next id; emails stay unique; the id counter moves on either way, as SQLite's AUTOINCREMENT does for an ignored insert |
| BackendDb.Database.ListLeads | backend/db.py:107-113 | every lead once, newest id first |
| BackendDb.Database.GetLead | backend/db.py:116-122 | the row, None exactly when absent |
| BackendDb.Database.UpdateLead | backend/db.py:125-154 | no fields: reads the row back; absent id or an email taken by another lead: None and nothing logged; else only the given fields change and one "update" is logged |
| BackendDb.Database.DeleteLead | backend/db.py:157-168 | removes the lead and all its links; true and one "delete" logged exactly when the lead existed |
| BackendDb.Database.ClaimLead | backend/db.py:171-184 | succeeds exactly on an existing unclaimed lead, recording claimer and time and logging "claim"; otherwise nothing changes |
| BackendDb.Database.CreateSequence | backend/db.py:187-200 | a new row under the next id, status "scheduled" |
| BackendDb.Database.AddSequenceStep | backend/db.py:203-211 | appends one step row |
| BackendDb.Database.AddSequenceLead | backend/db.py:214-222 | appends one link row |
| BackendDb.Database.AddLeadsToSequence | backend/db.py:268-270 | appends `LinksFor` the ids |
| BackendDb.Database.View | backend/db.py:239-253 | the row with its steps sorted by `step_index` (a permutation of its steps) and its linked lead ids |
| BackendDb.Database.GetSequence | backend/db.py:239-253 | the view, None exactly when absent |
| BackendDb.Database.ViewsDescShape | backend/db.py:228-234 | the listing over an id range holds the view of each sequence in range, with ids strictly decreasing |
| BackendDb.Database.ListSequences | backend/db.py:225-236 | every sequence exactly once, newest id first, each entry its `View` (row, sorted steps, lead ids) |
| BackendDb.Database.UpdateSequenceStatus | backend/db.py:256-265 | sets any status without a guard; true and one "sequence_status" logged exactly when the sequence exists |
| BackendDb.Database.GetDueSequences | backend/db.py:273-282 | exactly the due sequences, each once, in id order |
| BackendDb.Database.MarkSequenceSent | backend/db.py:285-291 | status "sent" and the time; the sequence is due at no time afterwards |
| BackendDb.Database.GetSequenceLeads | backend/db.py:294-300 | the lead ids linked to the sequence |
| BackendDb.StepRows | backend/main.py:84-85 | one step row per submitted step, in order |
| BackendDb.StepsOfAppend | backend/db.py:231 | selecting steps distributes over appended rows |
| BackendDb.StepsOfOther | backend/db.py:231 | rows of other sequences select nothing |
| BackendDb.StepsOfOwn | backend/db.py:231 | rows all of the sequence are selected whole |
| BackendDb.LeadIdsOfAppend | backend/db.py:294-300 | selecting lead ids distributes over appended links |
| BackendDb.LeadIdsOfOther | backend/db.py:294-300 | links of other sequences select nothing |
| BackendDb.LeadIdsOfLinksFor | backend/db.py:268-270 | the inserted links give back the submitted ids, duplicates and order included |
| BackendApi.SendsFor | backend/main.py:35-36 | one "send" record per linked lead, in order |
| BackendApi.SendLogEntries | backend/main.py:33-36 | every record of a pass is a "send" at `now` for a due sequence and one of its linked leads |
| BackendApi.MarkAllEffect | backend/main.py:37 | marking keeps the set of sequences, marks the listed ones sent and leaves the rest unchanged |
| BackendApi.PassLeavesNothingDue | backend/main.py:32-37 | after a pass nothing is due at `now`, and the only rows changed were due and are now "sent" |
| BackendApi.LogSends | backend/main.py:35-36 | the inner loop logs `SendsFor` |
| BackendApi.SendSequence | backend/main.py:34-37 | logs the sends of one sequence, then marks it sent |
| BackendApi.WorkerPass | backend/main.py:31-37 | the loop marks exactly the sequences due at the start and appends their sends in id order |
| BackendApi.CreateLead | backend/main.py:41-48 | always answers the lead row holding the email (the 500 branch is unreachable); name defaults to ""; a known email leaves the leads as they were but still uses up an id |
| BackendApi.EditLead | backend/main.py:56-62 | 404 exactly when the lead is absent or the email belongs to another lead; else the updated row |
| BackendApi.RemoveLead | backend/main.py:65-70 | 404 exactly when the lead did not exist; its links go either way; one "delete" record is logged exactly when the lead existed |
| BackendApi.ClaimLead | backend/main.py:73-78 | 404 exactly when the lead is absent or already claimed, and then nothing changes; else the claimer and time are recorded on that lead only and one "claim" record is logged |
| BackendApi.ClaimTwice | backend/main.py:73-78 | of two claims on an unclaimed lead the first wins and the second gets 404 |
| BackendApi.AddSteps | backend/main.py:84-85 | appends one step row per submitted step, in the order submitted, and keeps the database consistent |
| BackendApi.CreateSequence | backend/main.py:81-92 | stores every step and lead id; answers the new sequence holding exactly the submitted steps, sorted by `step_index`, and exactly the submitted lead ids |
| BackendApi.AddLeads | backend/main.py:100-106 | 404 exactly when the sequence is absent; else one link per id, without deduplication |
| BackendApi.SetSequenceStatus | backend/main.py:109-122 | 404 exactly when the sequence is absent; else the status is set |
| BackendApi.PauseSequence | backend/main.py:109-114 | 404 exactly when absent, and then nothing changes; else sets "paused" and logs one status record; a paused sequence is never due |
| BackendApi.ResumeSequence | backend/main.py:117-122 | 404 exactly when absent, and then nothing changes; else sets "scheduled" and logs one status record; the sequence is due again exactly from its scheduled time on |
| BackendApi.PostSequenceWebhook | backend/main.py:125-137 | 400 and nothing logged unless `to` and `subject` are truthy; else one "webhook_send" record and `queued` |
| BackendApi.PayloadJson | frontend/client/src/pages/Sequences.tsx:135-141 | the client's payload object has exactly the five keys |
| BackendApi.PlannedStepAccepted | backend/main.py:133 | were the client's calls sent to this webhook, a step would be refused exactly when its subject is empty |

## Left out

- Rendering, styling, icons, routing and toasts. A toast appears only where it
  decides a return value (`DeleteLead`, `SaveSequence`, `Fire`).
- The `fetch` calls to the placeholder endpoint. They are network I/O, and
  their failures are swallowed.
- Real timers, `async` interleaving and the order in which calls complete.
  A schedule is the list of (offset, payload) pairs; an outcome is classified
  per step.
- `Date.now()` ids are fresh-id parameters. Uniqueness is stated only where a
  fresh id is assumed (`AddLead`).
- `URLSearchParams` and `encodeURIComponent`. The query is a list of decoded
  pairs, so percent-encoding is not modelled.
- JavaScript's `\s`, `trim()` and `toUpperCase()` are modelled over an
  explicit whitespace set and ASCII letters. The full Unicode classes and
  case mappings are not modelled.
- String comparison is code-point lexicographic. UTF-16 code-unit order is
  not modelled for characters outside the Basic Multilingual Plane.
- LeadTable.SortedLeads: the engine's sort algorithm, and its in-place
  sorting of the spread copy. The model sorts a value by insertion. Only the
  permutation and the ordering are stated, so the order of equal keys is left
  open, as it is in the source.
- The React `useState` initialiser runs only when the component mounts; the
  model's constructors take the props at mount, and later prop changes
  reach only the dialog's `editLead` (`SetEditLead`).
- React state batching and stale closures. Each handler is one atomic
  transition on current state.
- SequenceBuilder.UpdateStep: an update of the `id` field through `updateStep`
  is not modelled. Only subject, body and delay are editable fields.
- `parseInt` of a non-numeric id, and `Math.max` of an empty list. Ids are
  integers, and the empty maximum is 0.
- The SQLite connection, the SQL text and the formatting of the `details`
  column. An activity record holds the values its text is made from.
- The `id` columns of `sequence_steps`, `sequence_leads` and `activity_log`:
  those rows are kept in insertion order instead.
- `datetime.utcnow()` is the `now` parameter. A worker pass uses one `now`
  for its whole body, whereas the source reads the clock afresh on each call.
- The order of `get_due_sequences` results is not fixed by the SQL. The model
  takes ascending id order.
- The threads, `time.sleep` and the endless loop of the worker. One pass is
  modelled.
- FastAPI routing, CORS, uvicorn and pydantic validation (`EmailStr`). The
  handlers take already-validated arguments, and JSON numbers are reals.
- `get_leads`, `get_sequences` and `list_activity` as routes. Each only
  returns `ListLeads`, `ListSequences` or `ListActivity`.
- A database file that already holds data when the server starts. The
  constructor starts from empty tables.
- The Total Sequences stat is the list length. It has no member of its own.
