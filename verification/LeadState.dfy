/**
 Everything that writes a lead's status fields: activities, visits, corrections, duplicate marking, project
 creation, archiving (internal/crmapi/activities.go, appointments.go, event_correction.go, duplicates.go,
 projects.go, leads.go). Each request is one step on one lead: almost all lock its row first. Archiving
 (leads.go:1314-1325) and the cancelling of future visits with a project (projects_mutations.go:205-212) do not; their
 statements lock the rows they write, and no guard is read before them.
 */
module LeadState {
  import opened Prelude
  import opened LeadModel
  import opened EventCorrection

  datatype Reminder = CallbackReminder | ThinkingReminder | CommentReminder | ShowroomReminder | MeasurementReminder

  /** `ok` is what the activity needs from outside: an active manager, a known loss reason. */
  datatype Activity =
    | CallResult(status: Call, due: Option<Time>)
    | ClientChange(client: Client, due: Option<Time>, ok: bool)
    | AddComment(text: string, due: Option<Time>)
    | ClearReminder(reminder: Reminder)
    | Reopen
    | AskQuestion
    | Rate
    | V2Change(v2: V2, due: Option<Time>, ok: bool)

  datatype Event =
    | Do(activity: Activity, stamp: Stamp)
    | Correct(entry: nat, request: Request)
    | CreateVisit(kind: VisitKind, free: bool, stamp: Stamp)
    | UpdateVisit(visit: nat, status: Option<VisitStatus>, stamp: Stamp)
    | MarkDuplicate(originalOk: bool, stamp: Stamp)
    | CreateProject(managerOk: bool, stamp: Stamp)
    | CancelFutureEvents(stamp: Stamp)
    | Archive(stamp: Stamp)
    | Unarchive(stamp: Stamp)

  // ---- activities ----------------------------------------------------------------------------

  predicate ValidActivity(a: Activity) {
    match a
    case CallResult(status, due) => status.CallbackRequested? == due.Some?
    case ClientChange(client, due, _) =>
      && !client.NewLead? && !client.MeasurementScheduled?
      && (client.ShowroomInvited? ==> due.Some?)
      && (client.CalculationInProgress? || Terminal(client) ==> due.None?)
    case AddComment(text, _) => text != ""
    case V2Change(v2, due, _) =>
      && (CallOf(v2).Some? || ClientOf(v2).Some?)
      && (v2.Lost? ==> due.None?)
      && (!v2.Lost? && !v2.Success? ==> due.Some?)
    case _ => true
  }

  /** What an invitation and a loss need from outside is missing: an active manager, a known reason. */
  predicate Refuses(a: Activity) {
    || (a.ClientChange? && (a.client.ShowroomInvited? || a.client.ClosedLost?) && !a.ok)
    || (a.V2Change? && (a.v2.Invited? || a.v2.Lost?) && !a.ok)
  }

  /** The guards, in the order the handler checks them. */
  function Guard(l: Lead, a: Activity): Option<Error> {
    if !ValidActivity(a) then Some(Invalid)
    else if l.archived then Some(NotFound)
    else if l.v2 == Some(InProject) && !a.AddComment? && !a.AskQuestion? then Some(Closed)
    else if a.Reopen? && !Terminal(l.client) then Some(InvalidTransition)
    else if !a.Reopen? && !a.AskQuestion? && Terminal(l.client) then Some(Closed)
    else if a.ClientChange? && a.client == l.client && !a.client.ShowroomInvited? then Some(Unchanged)
    else if Refuses(a) then Some(Refused)
    else None
  }

  function NextCall(l: Lead, a: Activity): Option<Call> {
    match a
    case CallResult(status, _) => Some(status)
    case V2Change(v2, _, _) => if CallOf(v2).Some? then CallOf(v2) else l.call
    case Reopen => None
    case _ => l.call
  }

  function NextClient(l: Lead, a: Activity): Client {
    match a
    case ClientChange(client, _, _) => client
    case V2Change(v2, _, _) => if ClientOf(v2).Some? then ClientOf(v2).value else l.client
    case Reopen => NewLead
    case _ => l.client
  }

  /** nextClientStatusCallbackDue. */
  function ClientCallback(call: Option<Call>, current: Option<Time>, client: Client,
                          requested: Option<Time>): Option<Time> {
    if Terminal(client) then None
    else if client.Thinking? || client.Postponed? then requested
    else if call == Some(CallbackRequested) then current
    else None
  }

  function NextCallback(l: Lead, a: Activity): Option<Time> {
    match a
    case CallResult(status, due) =>
      if status.CallbackRequested? then due
      else if l.client.Thinking? || l.client.Postponed? then l.callbackDue
      else None
    case ClientChange(client, due, _) => ClientCallback(l.call, l.callbackDue, client, due)
    case AddComment(_, due) => if due.Some? then due else l.callbackDue
    case ClearReminder(reminder) =>
      if reminder.CallbackReminder? || reminder.ThinkingReminder? then None
      else if reminder.CommentReminder? && l.callbackDue == CommentDue(l.entries) then None
      else l.callbackDue
    case Reopen => None
    case V2Change(v2, due, _) =>
      if v2.Invited? then ClientCallback(l.call, l.callbackDue, ShowroomInvited, due) else due
    case _ => l.callbackDue
  }

  function NextV2(l: Lead, a: Activity): Option<V2> {
    match a
    case CallResult(_, _) => Derive(NextClient(l, a), NextCall(l, a))
    case ClientChange(_, _, _) => Derive(NextClient(l, a), NextCall(l, a))
    case Reopen => Some(New)
    case V2Change(v2, _, _) => Some(v2)
    case _ => l.v2
  }

  function NextAttempts(l: Lead, a: Activity): nat {
    if a.V2Change? && a.v2.NoAnswer? then l.attempts + 1
    else if a.V2Change? && a.v2.Success? then 0
    else l.attempts
  }

  function NextVisits(l: Lead, a: Activity): seq<Visit> {
    match a
    case ClientChange(client, _, _) =>
      if Terminal(client) then CancelVisits(l.visits, None)
      else if client.ShowroomInvited? then BookedShowroom(l.visits)
      else l.visits
    case V2Change(v2, _, _) =>
      if v2.Lost? then CancelVisits(l.visits, None)
      else if v2.Invited? then BookedShowroom(l.visits)
      else l.visits
    case ClearReminder(reminder) =>
      if reminder.ShowroomReminder? then CancelVisits(l.visits, Some(Showroom))
      else if reminder.MeasurementReminder? then CancelVisits(l.visits, Some(Measurement))
      else l.visits
    case _ => l.visits
  }

  /** The timeline entry of an activity; a v2 status is stored like the v1 change it mirrors. */
  function EntryOf(l: Lead, a: Activity, stamp: Stamp): Entry {
    var blank := Entry(stamp.at, stamp.id, Other, System, NoCode, None, None, None, None, []);
    match a
    case CallResult(status, due) =>
      blank.(what := CallChanged, category := CallCategory, code := CallCode(status), oldCall := l.call, due := due)
    case ClientChange(client, due, _) =>
      blank.(what := ClientChanged, category := ClientCategory, code := ClientCode(client), oldClient := Some(l.client),
             due := if client.Thinking? || client.Postponed? then due else None)
    case AddComment(text, due) =>
      blank.(what := CommentAdded, category := CommentCategory, comment := Some(text), due := due)
    case ClearReminder(reminder) =>
      blank.(what := ReminderCleared, category := if reminder.CommentReminder? then CommentCategory else System)
    case Reopen =>
      blank.(what := Reopened, code := ClientCode(NewLead), oldCall := l.call, oldClient := Some(l.client))
    case AskQuestion => blank.(what := QuestionAsked, category := QuestionCategory, code := OtherCode)
    case Rate => blank.(what := RatingChanged)
    case V2Change(v2, due, _) =>
      if CallOf(v2).Some? then
        blank.(what := CallChanged, category := CallCategory, code := CallCode(CallOf(v2).value), oldCall := l.call,
               due := due)
      else if ClientOf(v2).Some? then
        blank.(what := ClientChanged, category := ClientCategory, code := ClientCode(ClientOf(v2).value),
               oldClient := Some(l.client), due := if v2.Thinking? then due else None)
      else blank
  }

  function AfterActivity(l: Lead, a: Activity, stamp: Stamp): Lead {
    l.(call := NextCall(l, a), client := NextClient(l, a), callbackDue := NextCallback(l, a), v2 := NextV2(l, a),
       attempts := NextAttempts(l, a), visits := NextVisits(l, a), entries := l.entries + [EntryOf(l, a, stamp)],
       duplicate := if a.Reopen? then false else l.duplicate)
  }

  function ActivityStep(l: Lead, a: Activity, stamp: Stamp): Result<Lead, Error> {
    if Guard(l, a).Some? then Err(Guard(l, a).value) else Ok(AfterActivity(l, a, stamp))
  }

  // ---- the other requests --------------------------------------------------------------------

  function SystemEntry(stamp: Stamp): Entry {
    Entry(stamp.at, stamp.id, Other, System, NoCode, None, None, None, None, [])
  }

  function ClientOfVisit(kind: VisitKind): Client {
    if kind.Measurement? then MeasurementScheduled else ShowroomInvited
  }

  function CreateVisitStep(l: Lead, kind: VisitKind, free: bool, stamp: Stamp): Result<Lead, Error> {
    var booked := l.visits + [Visit(kind, Scheduled)];
    var entry := SystemEntry(stamp);
    if l.archived || Terminal(l.client) then Err(NotFound)
    else if !kind.OfficeWork? && HasScheduled(l.visits, kind) then Err(AlreadyActive)
    else if !free then Err(Busy)
    else if kind.OfficeWork? then Ok(l.(visits := booked, entries := l.entries + [entry]))
    else
      Ok(l.(visits := booked, client := ClientOfVisit(kind),
            callbackDue := if l.call == Some(CallbackRequested) then l.callbackDue else None,
            entries := l.entries + [entry.(what := AppointmentScheduled, category := ClientCategory,
                                           code := ClientCode(ClientOfVisit(kind)))]))
  }

  /** A visit is only ever moved out of `scheduled`. */
  function UpdateVisitStep(l: Lead, i: nat, status: Option<VisitStatus>, stamp: Stamp): Result<Lead, Error> {
    if i >= |l.visits| then Err(NotFound)
    else if status == Some(Scheduled) then Err(Invalid)
    else if l.visits[i].kind.OfficeWork? && status.Some? then Err(Invalid)
    else if !l.visits[i].status.Scheduled? && status.Some? then Err(Closed)
    else
      var next := if status.Some? then status.value else l.visits[i].status;
      Ok(l.(visits := l.visits[i := l.visits[i].(status := next)], entries := l.entries + [SystemEntry(stamp)]))
  }

  function MarkDuplicateStep(l: Lead, originalOk: bool, stamp: Stamp): Result<Lead, Error> {
    if l.archived then Err(NotFound)
    else if l.duplicate then Err(AlreadyDuplicate)
    else if l.client.ContractSigned? || l.v2 == Some(InProject) then Err(Closed)
    else if !originalOk then Err(Refused)
    else
      var closed := if l.client.ClosedLost? then l else AfterActivity(l, ClientChange(ClosedLost, None, true), stamp);
      Ok(closed.(duplicate := true, entries := closed.entries + [SystemEntry(stamp)]))
  }

  function CreateProjectStep(l: Lead, managerOk: bool, stamp: Stamp): Result<Lead, Error> {
    if l.archived then Err(NotFound)
    else if l.hasProject then Err(ProjectExists)
    else if l.client.ClosedLost? then Err(Closed)
    else if !managerOk then Err(Refused)
    else Ok(l.(hasProject := true, v2 := Some(InProject), entries := l.entries + [SystemEntry(stamp)]))
  }

  function Step(l: Lead, e: Event): Result<Lead, Error> {
    match e
    case Do(a, stamp) => ActivityStep(l, a, stamp)
    case Correct(i, r) => CorrectStep(l, i, r)
    case CreateVisit(kind, free, stamp) => CreateVisitStep(l, kind, free, stamp)
    case UpdateVisit(i, status, stamp) => UpdateVisitStep(l, i, status, stamp)
    case MarkDuplicate(ok, stamp) => MarkDuplicateStep(l, ok, stamp)
    case CreateProject(ok, stamp) => CreateProjectStep(l, ok, stamp)
    case CancelFutureEvents(stamp) =>
      Ok(l.(visits := CancelVisits(l.visits, None), entries := l.entries + [SystemEntry(stamp)]))
    case Archive(stamp) =>
      Ok(l.(visits := CancelVisits(l.visits, None), archived := true,
            entries := if l.archived then l.entries else l.entries + [SystemEntry(stamp)]))
    case Unarchive(stamp) =>
      Ok(l.(archived := false, entries := if l.archived then l.entries + [SystemEntry(stamp)] else l.entries))
  }

  /** A refused request changes nothing. */
  function After(l: Lead, e: Event): Lead {
    if Step(l, e).Ok? then Step(l, e).value else l
  }

  function Run(l: Lead, events: seq<Event>): Lead
    decreases |events|
  {
    if events == [] then l else Run(After(l, events[0]), events[1..])
  }

  // ---- every writer keeps the invariants -----------------------------------------------------

  predicate Steady(l: Lead) {
    Coherent(l) && EntriesOk(l.entries)
  }

  predicate Good(l: Lead) {
    Steady(l) && CallsMirrored(l)
  }

  lemma {:induction false} ActivityKeepsInv(l: Lead, a: Activity, stamp: Stamp)
    requires Coherent(l) && Guard(l, a).None?
    ensures var after := AfterActivity(l, a, stamp);
            Coherent(after) && (CallsMirrored(l) ==> CallsMirrored(after))
  {
  }

  /** An entry is never written with a closed old client status, except by reopening, which cannot be corrected. */
  lemma {:induction false} EntryIsOk(l: Lead, a: Activity, stamp: Stamp)
    requires Guard(l, a).None?
    ensures UndoesToOpen(EntryOf(l, a, stamp)) && ChainOk(EntryOf(l, a, stamp))
  {
  }

  lemma {:induction false} EntriesAppend(entries: seq<Entry>, e: Entry)
    requires EntriesOk(entries) && UndoesToOpen(e) && ChainOk(e)
    ensures EntriesOk(entries + [e])
  {
  }

  lemma {:induction false} DuplicateKeeps(l: Lead, originalOk: bool, stamp: Stamp)
    requires Steady(l) && MarkDuplicateStep(l, originalOk, stamp).Ok?
    ensures var after := MarkDuplicateStep(l, originalOk, stamp).value;
            Steady(after) && (Good(l) ==> Good(after))
  {
    if l.client.ClosedLost? {
      EntriesAppend(l.entries, SystemEntry(stamp));
    } else {
      var a := ClientChange(ClosedLost, None, true);
      ActivityKeepsInv(l, a, stamp);
      EntryIsOk(l, a, stamp);
      EntriesAppend(l.entries, EntryOf(l, a, stamp));
      EntriesAppend(AfterActivity(l, a, stamp).entries, SystemEntry(stamp));
    }
  }

  lemma {:induction false} VisitStepsKeep(l: Lead, e: Event)
    requires Steady(l) && (e.CreateVisit? || e.UpdateVisit?)
    ensures Steady(After(l, e)) && (Good(l) ==> Good(After(l, e)))
  {
    EntriesAppend(l.entries, SystemEntry(e.stamp));
    if e.CreateVisit? {
      EntriesAppend(l.entries, SystemEntry(e.stamp).(what := AppointmentScheduled, category := ClientCategory,
                                                     code := ClientCode(ClientOfVisit(e.kind))));
    }
  }

  lemma {:induction false} StepKeeps(l: Lead, e: Event)
    requires Steady(l)
    ensures Steady(After(l, e)) && (Good(l) ==> Good(After(l, e)))
  {
    match e
    case Do(a, stamp) =>
      if Guard(l, a).None? {
        ActivityKeepsInv(l, a, stamp);
        EntryIsOk(l, a, stamp);
        EntriesAppend(l.entries, EntryOf(l, a, stamp));
      }
    case Correct(i, r) =>
      if CorrectStep(l, i, r).Ok? {
        CorrectKeeps(l, i, r);
      }
    case CreateVisit(_, _, _) => VisitStepsKeep(l, e);
    case UpdateVisit(_, _, _) => VisitStepsKeep(l, e);
    case MarkDuplicate(ok, stamp) =>
      if MarkDuplicateStep(l, ok, stamp).Ok? {
        DuplicateKeeps(l, ok, stamp);
      }
    case _ => EntriesAppend(l.entries, SystemEntry(e.stamp));
  }

  lemma {:induction false} RunKeeps(l: Lead, events: seq<Event>)
    requires Good(l)
    ensures Good(Run(l, events))
    decreases |events|
  {
    if events != [] {
      StepKeeps(l, events[0]);
      RunKeeps(After(l, events[0]), events[1..]);
    }
  }

  /** In every reachable state, a closed or signed lead has no reminder and no scheduled visit. */
  lemma {:induction false} ClosedLeadsAreQuiet(events: seq<Event>)
    ensures var l := Run(NEW_LEAD, events);
            Terminal(l.client) ==>
              && l.callbackDue.None?
              && (forall i :: 0 <= i < |l.visits| ==> !l.visits[i].status.Scheduled?)
  {
    RunKeeps(NEW_LEAD, events);
  }

  /** In every reachable state, `lost` is closed_lost in both systems, and a v2 call result is the v1 call status. */
  lemma {:induction false} V2MirrorsV1(events: seq<Event>)
    ensures var l := Run(NEW_LEAD, events);
            && (l.client == ClosedLost <==> l.v2 == Some(Lost))
            && (l.v2 == Some(V2.Success) ==> l.call == Some(Reached))
            && (l.v2 == Some(V2.Later) ==> l.call == Some(CallbackRequested))
            && (l.v2 == Some(V2.NoAnswer) ==> l.call == Some(Unanswered))
            && (l.v2 == Some(New) ==> l.call == None)
            && (l.duplicate ==> l.client == ClosedLost)
  {
    RunKeeps(NEW_LEAD, events);
  }

  /** No request takes back an entry or anything of its history of corrections. */
  lemma {:induction false} HistoriesOnlyGrow(l: Lead, events: seq<Event>, i: nat)
    requires i < |l.entries|
    ensures var after := Run(l, events).entries;
            && i < |after| && after[i].at == l.entries[i].at && after[i].id == l.entries[i].id
            && l.entries[i].corrections <= after[i].corrections
            && (after[i].corrections == l.entries[i].corrections ==> after[i] == l.entries[i])
    decreases |events|
  {
    if events != [] {
      HistoryStep(l, events[0], i);
      HistoriesOnlyGrow(After(l, events[0]), events[1..], i);
    }
  }

  lemma {:induction false} HistoryStep(l: Lead, e: Event, i: nat)
    requires i < |l.entries|
    ensures var after := After(l, e).entries;
            && i < |after| && after[i].at == l.entries[i].at && after[i].id == l.entries[i].id
            && l.entries[i].corrections <= after[i].corrections
            && (after[i].corrections == l.entries[i].corrections ==> after[i] == l.entries[i])
  {
    if e.Correct? && CorrectStep(l, e.entry, e.request).Ok? {
      CorrectionsOnlyAppend(l, e.entry, e.request);
    }
  }

  /** In every reachable state, an entry's corrections form a chain that ends with the type it reads as. */
  lemma {:induction false} CorrectionChains(events: seq<Event>, i: nat)
    requires i < |Run(NEW_LEAD, events).entries|
    ensures ChainOk(Run(NEW_LEAD, events).entries[i])
  {
    RunKeeps(NEW_LEAD, events);
  }

  /** An accepted activity keeps the date it was given: as the reminder, or as a showroom visit. */
  lemma {:induction false} DatesAreKept(l: Lead, a: Activity, stamp: Stamp)
    requires Guard(l, a).None?
    ensures var after := AfterActivity(l, a, stamp);
            && (a.CallResult? && a.status.CallbackRequested? ==> a.due.Some? && after.callbackDue == a.due)
            && (a.V2Change? && (a.v2.Later? || a.v2.NoAnswer? || a.v2.Thinking?) ==>
                  a.due.Some? && after.callbackDue == a.due)
            && ((a.ClientChange? && a.client.ShowroomInvited?) || (a.V2Change? && a.v2.Invited?) ==>
                  a.due.Some? && HasScheduled(after.visits, Showroom))
            && (a.AddComment? && a.due.Some? ==> after.callbackDue == a.due)
  {
    if !HasScheduled(l.visits, Showroom) {
      assert BookedShowroom(l.visits)[|l.visits|] == Visit(Showroom, Scheduled);
    }
  }

  /** A closed or signed lead keeps its client status until someone reopens it. */
  lemma {:induction false} ClosedUntilReopened(l: Lead, events: seq<Event>)
    requires Terminal(l.client)
    requires forall i :: 0 <= i < |events| ==> !(events[i].Do? && events[i].activity.Reopen?)
    ensures Run(l, events).client == l.client
    decreases |events|
  {
    if events != [] {
      ClosedStep(l, events[0]);
      ClosedUntilReopened(After(l, events[0]), events[1..]);
    }
  }

  lemma {:induction false} ClosedStep(l: Lead, e: Event)
    requires Terminal(l.client) && !(e.Do? && e.activity.Reopen?)
    ensures After(l, e).client == l.client
  {
  }

  // ---- when the v2 status is in step ---------------------------------------------------------

  /** The v2 status is the one the v1 fields derive to. */
  predicate Fresh(l: Lead) {
    l.v2 == Derive(l.client, l.call)
  }

  predicate Accepted(l: Lead, e: Event) {
    Step(l, e).Ok?
  }

  predicate AcceptedFollowing(l: Lead, e: Event) {
    && e.Correct? && CorrectStep(l, e.entry, e.request).Ok?
    && e.entry < |l.entries| && KindOfEntry(l.entries[e.entry]).Some?
    && var current := KindOfEntry(l.entries[e.entry]).value;
       LeadFollows(l, e.entry, current, NextKind(e.request, current))
  }

  /** The visit leaves the client status at what the v2 status names, or at none it could name. */
  predicate VisitFits(l: Lead, kind: VisitKind) {
    (kind.Showroom? && l.v2 == Some(Invited)) || (kind.Measurement? && l.v2.None?)
  }

  /** Puts the v2 status in step, whatever it was. */
  predicate Restores(l: Lead, e: Event) {
    Accepted(l, e) &&
    match e
    case Do(a, _) =>
      || a.CallResult? || a.ClientChange? || a.Reopen?
      || (a.V2Change? && (ClientOf(a.v2).Some? || l.client.NewLead?))
    case Correct(_, _) => AcceptedFollowing(l, e)
    case CreateVisit(kind, _, _) => VisitFits(l, kind)
    case MarkDuplicate(_, _) => !l.client.ClosedLost?
    case _ => false
  }

  /** Puts the v2 status out of step, whatever it was. */
  predicate Breaks(l: Lead, e: Event) {
    Accepted(l, e) &&
    match e
    case Do(a, _) => a.V2Change? && CallOf(a.v2).Some? && !l.client.NewLead?
    case CreateVisit(kind, _, _) => !kind.OfficeWork? && !VisitFits(l, kind)
    case CreateProject(_, _) => true
    case _ => false
  }

  /** Every other request leaves it in or out of step as it was. */
  lemma {:induction false} StepFreshIff(l: Lead, e: Event)
    ensures Fresh(After(l, e)) <==> Restores(l, e) || (Fresh(l) && !Breaks(l, e))
  {
    if e.Do? && Guard(l, e.activity).None? {
      ActivityFreshIff(l, e.activity, e.stamp);
    }
  }

  lemma {:induction false} ActivityFreshIff(l: Lead, a: Activity, stamp: Stamp)
    requires Guard(l, a).None?
    ensures var e := Do(a, stamp);
            Fresh(AfterActivity(l, a, stamp)) <==> Restores(l, e) || (Fresh(l) && !Breaks(l, e))
  {
  }

  /** A visit booked for a lead in step leaves it in step exactly when it books what the v2 status says. */
  lemma {:induction false} VisitKeepsFreshIff(l: Lead, kind: VisitKind, stamp: Stamp)
    requires Fresh(l) && CreateVisitStep(l, kind, true, stamp).Ok?
    ensures Fresh(CreateVisitStep(l, kind, true, stamp).value) <==> kind.OfficeWork? || VisitFits(l, kind)
  {
  }

  predicate NeverBreaks(l: Lead, events: seq<Event>)
    decreases |events|
  {
    events != [] ==> !Breaks(l, events[0]) && NeverBreaks(After(l, events[0]), events[1..])
  }

  /** Some request of the run restores, and none after it breaks. */
  predicate Restored(l: Lead, events: seq<Event>)
    decreases |events|
  {
    && events != []
    && var next := After(l, events[0]);
       (Restores(l, events[0]) && NeverBreaks(next, events[1..])) || Restored(next, events[1..])
  }

  /** After any run the v2 status is in step exactly when the last request that decides it restored it. */
  lemma {:induction false} RunFreshIff(l: Lead, events: seq<Event>)
    ensures Fresh(Run(l, events)) <==> (Fresh(l) && NeverBreaks(l, events)) || Restored(l, events)
    decreases |events|
  {
    if events != [] {
      StepFreshIff(l, events[0]);
      RunFreshIff(After(l, events[0]), events[1..]);
    }
  }

  lemma {:induction false} RunSplit(l: Lead, first: Event, others: seq<Event>)
    ensures Run(l, [first] + others) == Run(After(l, first), others)
  {
    assert ([first] + others)[1..] == others;
  }

  /** A reachable lead whose v2 status is stale: thinking, with a measurement booked. */
  lemma {:induction false} V2ThinkingDoesNotPin(s: Stamp)
    ensures var l := Run(NEW_LEAD, [Do(V2Change(V2.Thinking, Some(1), true), s)]
                                   + ([CreateVisit(Measurement, true, s)] + []));
            l.v2 == Some(V2.Thinking) && l.client == MeasurementScheduled && !Fresh(l)
  {
    var thinking := Do(V2Change(V2.Thinking, Some(1), true), s);
    RunSplit(NEW_LEAD, thinking, [CreateVisit(Measurement, true, s)] + []);
    RunSplit(After(NEW_LEAD, thinking), CreateVisit(Measurement, true, s), []);
  }

  /** Another one: thinking in v1, and the v2 call result `later` on top of it. */
  lemma {:induction false} V2CallDoesNotPin(s: Stamp)
    ensures var l := Run(NEW_LEAD, [Do(ClientChange(Client.Thinking, None, true), s)]
                                   + ([Do(V2Change(V2.Later, Some(1), true), s)] + []));
            l.v2 == Some(V2.Later) && l.client == Client.Thinking && !Fresh(l)
  {
    var thinking := Do(ClientChange(Client.Thinking, None, true), s);
    var later := Do(V2Change(V2.Later, Some(1), true), s);
    RunSplit(NEW_LEAD, thinking, [later] + []);
    RunSplit(After(NEW_LEAD, thinking), later, []);
  }

  // ---- when the v2 status stays `project` ----------------------------------------------------

  /** Of all requests only a correction that the lead follows takes the v2 status `project` away. */
  lemma {:induction false} ProjectStaysIff(l: Lead, e: Event)
    requires l.v2 == Some(InProject)
    ensures After(l, e).v2 == Some(InProject) <==> !AcceptedFollowing(l, e)
  {
  }

  predicate NeverFollows(l: Lead, events: seq<Event>)
    decreases |events|
  {
    events != [] ==> !AcceptedFollowing(l, events[0]) && NeverFollows(After(l, events[0]), events[1..])
  }

  /** A lead with a project gets the v2 status `project` from no request. */
  lemma {:induction false} ProjectIsNotRegained(l: Lead, events: seq<Event>)
    requires l.hasProject && l.v2 != Some(InProject)
    ensures Run(l, events).hasProject && Run(l, events).v2 != Some(InProject)
    decreases |events|
  {
    if events != [] {
      ProjectIsNotGiven(l, events[0]);
      ProjectIsNotRegained(After(l, events[0]), events[1..]);
    }
  }

  lemma {:induction false} ProjectIsNotGiven(l: Lead, e: Event)
    requires l.hasProject
    ensures After(l, e).hasProject && (l.v2 != Some(InProject) ==> After(l, e).v2 != Some(InProject))
  {
  }

  /** Over any run it stays exactly when the lead follows no correction: once lost, it never comes back. */
  lemma {:induction false} RunKeepsProjectIff(l: Lead, events: seq<Event>)
    requires l.hasProject && l.v2 == Some(InProject)
    ensures Run(l, events).v2 == Some(InProject) <==> NeverFollows(l, events)
    decreases |events|
  {
    if events != [] {
      var next := After(l, events[0]);
      ProjectStaysIff(l, events[0]);
      ProjectIsNotGiven(l, events[0]);
      if AcceptedFollowing(l, events[0]) {
        ProjectIsNotRegained(next, events[1..]);
      } else {
        RunKeepsProjectIff(next, events[1..]);
      }
    }
  }

  /** A correction has no guard for a lead that became a project: the v2 status `project` is lost, the project stays. */
  lemma {:induction false} ProjectStatusCanBeLost(s: Stamp)
    ensures var called := After(NEW_LEAD, Do(CallResult(Unanswered, None), s));
            var project := After(called, CreateProject(true, s));
            var corrected := After(project, Correct(0, Retype(Kind.Success, None)));
            && project.v2 == Some(InProject)
            && corrected.hasProject && corrected.v2 == Some(V2.Success)
  {
    var called := After(NEW_LEAD, Do(CallResult(Unanswered, None), s));
    var project := After(called, CreateProject(true, s));
    assert LatestStatus(called.entries) == Some(0) by {
      assert called.entries[..0] == [];
    }
    assert project.entries[..1] == called.entries;
    assert LatestStatus(project.entries) == Some(0);
  }
}
