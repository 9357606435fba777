/**
 What each request does to a lead, field by field: which ones are accepted and what the row, its visits and its
 timeline hold afterwards (internal/crmapi/activities.go, v2_status.go, appointments.go, event_correction.go,
 duplicates.go, projects.go, leads.go).
 */
module LeadEffects {
  import opened Prelude
  import opened LeadModel
  import opened EventCorrection
  import opened LeadState

  predicate IsClosed(l: Lead) {
    l.client == ClosedLost || l.client == ContractSigned
  }

  /** Every scheduled visit, of one kind or of all, is cancelled and nothing else changes. */
  predicate Cancelled(before: seq<Visit>, after: seq<Visit>, kind: Option<VisitKind>) {
    && |after| == |before|
    && forall i :: 0 <= i < |before| ==>
         after[i] == if before[i].status == Scheduled && (kind == None || kind == Some(before[i].kind))
                     then Visit(before[i].kind, Canceled) else before[i]
  }

  /** There is a scheduled showroom visit: the one that was there, or else a new one. */
  predicate ShowroomBooked(before: seq<Visit>, after: seq<Visit>) {
    && (exists i :: 0 <= i < |after| && after[i] == Visit(Showroom, Scheduled))
    && (after == before || (after == before + [Visit(Showroom, Scheduled)]
                            && forall i :: 0 <= i < |before| ==> before[i] != Visit(Showroom, Scheduled)))
  }

  lemma {:induction false} BookedIsBooked(visits: seq<Visit>)
    ensures ShowroomBooked(visits, BookedShowroom(visits))
  {
    if !HasScheduled(visits, Showroom) {
      assert BookedShowroom(visits)[|visits|] == Visit(Showroom, Scheduled);
    }
  }

  // ---- which activities are accepted ---------------------------------------------------------

  predicate WellFormed(a: Activity) {
    match a
    case CallResult(status, due) => status == CallbackRequested <==> due != None
    case ClientChange(client, due, ok) =>
      && client != NewLead && client != MeasurementScheduled
      && (client == ShowroomInvited ==> due != None)
      && (client in {CalculationInProgress, ClosedLost, ContractSigned} ==> due == None)
    case AddComment(text, _) => text != ""
    case V2Change(v2, due, ok) =>
      && v2 != New && v2 != InProject
      && (v2 == Lost ==> due == None) && (v2 in {V2.Later, V2.NoAnswer, V2.Thinking, Invited} ==> due != None)
    case _ => true
  }

  /** What has to be found elsewhere for an invitation or a loss. */
  predicate NeedsLookup(a: Activity) {
    || (a.ClientChange? && (a.client == ShowroomInvited || a.client == ClosedLost))
    || (a.V2Change? && (a.v2 == Invited || a.v2 == Lost))
  }

  lemma {:induction false} ActivityAcceptedIff(l: Lead, a: Activity, stamp: Stamp)
    ensures Step(l, Do(a, stamp)).Ok?
       <==> && WellFormed(a) && !l.archived
            && (l.v2 == Some(InProject) ==> a.AddComment? || a.AskQuestion?)
            && (a.Reopen? ==> IsClosed(l)) && (IsClosed(l) ==> a.Reopen? || a.AskQuestion?)
            && (a.ClientChange? && a.client == l.client ==> a.client == ShowroomInvited)
            && (NeedsLookup(a) ==> if a.ClientChange? then a.ok else a.V2Change? && a.ok)
  {
  }

  /** Which refusal is answered: what is wrong with the request, then with the lead, then with what it needs. */
  lemma {:induction false} RefusalIs(l: Lead, a: Activity, stamp: Stamp)
    ensures var r := Step(l, Do(a, stamp));
            && (r == Err(Invalid) <==> !WellFormed(a))
            && (r == Err(NotFound) <==> WellFormed(a) && l.archived)
            && (r == Err(InvalidTransition) <==> a.Reopen? && !l.archived && l.v2 != Some(InProject) && !IsClosed(l))
            && (r == Err(Closed) <==>
                  && WellFormed(a) && !l.archived && !a.AskQuestion?
                  && ((l.v2 == Some(InProject) && !a.AddComment?) || (IsClosed(l) && !a.Reopen?)))
            && (r == Err(Unchanged) <==>
                  && WellFormed(a) && !l.archived && l.v2 != Some(InProject) && !IsClosed(l)
                  && a.ClientChange? && a.client == l.client && a.client != ShowroomInvited)
            && (r.Err? ==> r.error in {Invalid, NotFound, InvalidTransition, Closed, Unchanged, Refused})
  {
  }

  // ---- what they do --------------------------------------------------------------------------

  /** A call result is the call status; the reminder is its date, and is dropped unless the client status keeps one. */
  lemma {:induction false} CallResultIs(l: Lead, status: Call, due: Option<Time>, stamp: Stamp)
    requires Step(l, Do(CallResult(status, due), stamp)).Ok?
    ensures var after := Step(l, Do(CallResult(status, due), stamp)).value;
            after == l.(call := Some(status),
                        callbackDue := if status == CallbackRequested then due
                                       else if l.client == Client.Thinking || l.client == Postponed then l.callbackDue
                                       else None,
                        v2 := after.v2,
                        entries := l.entries + [Entry(stamp.at, stamp.id, CallChanged, CallCategory, CallCode(status),
                                                      None, l.call, None, due, [])])
            && (l.client == NewLead ==>
                  && (status == Reached ==> after.v2 == Some(V2.Success))
                  && (status == CallbackRequested ==> after.v2 == Some(V2.Later))
                  && (status == Unanswered ==> after.v2 == Some(V2.NoAnswer)))
            && (l.client == ShowroomInvited ==> after.v2 == Some(Invited))
            && (l.client == Client.Thinking ==> after.v2 == Some(V2.Thinking))
            && (l.client in {MeasurementScheduled, CalculationInProgress, Postponed} ==> after.v2 == None)
  {
  }

  /** A client change is the client status, with the v2 status of that name, its date and its visits. */
  lemma {:induction false} ClientChangeIs(l: Lead, client: Client, due: Option<Time>, ok: bool, stamp: Stamp)
    requires Step(l, Do(ClientChange(client, due, ok), stamp)).Ok?
    ensures var after := Step(l, Do(ClientChange(client, due, ok), stamp)).value;
            var keeps := client == Client.Thinking || client == Postponed;
            && after == l.(client := client, visits := after.visits,
                           callbackDue := if client == ClosedLost || client == ContractSigned then None
                                          else if keeps then due
                                          else if l.call == Some(CallbackRequested) then l.callbackDue else None,
                           v2 := if client == ShowroomInvited then Some(Invited)
                                 else if client == Client.Thinking then Some(V2.Thinking)
                                 else if client == ClosedLost then Some(Lost) else None,
                           entries := l.entries + [Entry(stamp.at, stamp.id, ClientChanged, ClientCategory,
                                                         ClientCode(client), None, None, Some(l.client),
                                                         if keeps then due else None, [])])
            && (client == ShowroomInvited ==> ShowroomBooked(l.visits, after.visits))
            && (client == ClosedLost || client == ContractSigned ==> Cancelled(l.visits, after.visits, None))
            && (client !in {ShowroomInvited, ClosedLost, ContractSigned} ==> after.visits == l.visits)
  {
    BookedIsBooked(l.visits);
  }

  /** A v2 call result is that call status and raises the counter or zeroes it. */
  lemma {:induction false} V2CallIs(l: Lead, v2: V2, due: Option<Time>, ok: bool, stamp: Stamp)
    requires v2 in {V2.Success, V2.Later, V2.NoAnswer} && Step(l, Do(V2Change(v2, due, ok), stamp)).Ok?
    ensures var call := if v2 == V2.Success then Reached else if v2 == V2.Later then CallbackRequested else Unanswered;
            Step(l, Do(V2Change(v2, due, ok), stamp)).value
            == l.(call := Some(call), v2 := Some(v2), callbackDue := due,
                  attempts := if v2 == V2.NoAnswer then l.attempts + 1 else if v2 == V2.Success then 0 else l.attempts,
                  entries := l.entries + [Entry(stamp.at, stamp.id, CallChanged, CallCategory, CallCode(call), None,
                                                l.call, None, due, [])])
  {
  }

  /** A v2 lead status is that client status. */
  lemma {:induction false} V2ClientIs(l: Lead, v2: V2, due: Option<Time>, ok: bool, stamp: Stamp)
    requires v2 in {V2.Thinking, Invited, Lost} && Step(l, Do(V2Change(v2, due, ok), stamp)).Ok?
    ensures var after := Step(l, Do(V2Change(v2, due, ok), stamp)).value;
            var client := if v2 == V2.Thinking then Client.Thinking
                          else if v2 == Invited then ShowroomInvited else ClosedLost;
            && after == l.(client := client, v2 := Some(v2), visits := after.visits,
                           callbackDue := if v2 == V2.Thinking then due
                                          else if v2 == Invited && l.call == Some(CallbackRequested) then l.callbackDue
                                          else None,
                           entries := l.entries + [Entry(stamp.at, stamp.id, ClientChanged, ClientCategory,
                                                         ClientCode(client), None, None, Some(l.client),
                                                         if v2 == V2.Thinking then due else None, [])])
            && (v2 == V2.Thinking ==> after.visits == l.visits)
            && (v2 == Invited ==> ShowroomBooked(l.visits, after.visits))
            && (v2 == Lost ==> Cancelled(l.visits, after.visits, None))
  {
    BookedIsBooked(l.visits);
  }

  /** Reopening starts over: a new lead without a call, a reminder or the mark of a duplicate. */
  lemma {:induction false} ReopenIs(l: Lead, stamp: Stamp)
    requires Step(l, Do(Reopen, stamp)).Ok?
    ensures Step(l, Do(Reopen, stamp)).value
         == l.(call := None, client := NewLead, callbackDue := None, v2 := Some(New), duplicate := false,
               entries := l.entries + [Entry(stamp.at, stamp.id, Reopened, System, ClientCode(NewLead), None, l.call,
                                             Some(l.client), None, [])])
  {
  }

  /** A comment may set the reminder; a question and a rating change nothing but the timeline. */
  lemma {:induction false} NotesAre(l: Lead, text: string, due: Option<Time>, stamp: Stamp)
    ensures Step(l, Do(AddComment(text, due), stamp)).Ok? ==>
              Step(l, Do(AddComment(text, due), stamp)).value
              == l.(callbackDue := if due == None then l.callbackDue else due,
                    entries := l.entries + [Entry(stamp.at, stamp.id, CommentAdded, CommentCategory, NoCode, Some(text),
                                                  None, None, due, [])])
    ensures Step(l, Do(AskQuestion, stamp)).Ok? ==>
              Step(l, Do(AskQuestion, stamp)).value
              == l.(entries := l.entries + [Entry(stamp.at, stamp.id, QuestionAsked, QuestionCategory, OtherCode, None,
                                                  None, None, None, [])])
    ensures Step(l, Do(Rate, stamp)).Ok? ==>
              Step(l, Do(Rate, stamp)).value
              == l.(entries := l.entries + [Entry(stamp.at, stamp.id, RatingChanged, System, NoCode, None, None, None,
                                                  None, [])])
  {
  }

  /** The latest comment: none in the timeline is later. */
  predicate IsLatestComment(entries: seq<Entry>, i: nat) {
    && i < |entries| && entries[i].category == CommentCategory
    && forall k :: 0 <= k < |entries| && k != i && entries[k].category == CommentCategory ==>
         entries[k].at < entries[i].at || (entries[k].at == entries[i].at && entries[k].id < entries[i].id)
  }

  lemma {:induction false} LatestCommentIs(entries: seq<Entry>, i: nat)
    requires IsLatestComment(entries, i)
    ensures LatestComment(entries) == Some(i)
  {
    var n := |entries| - 1;
    if i < n {
      LatestCommentIs(entries[..n], i);
    } else {
      LatestCommentIn(entries[..n]);
    }
  }

  lemma {:induction false} LatestCommentIn(entries: seq<Entry>)
    ensures LatestComment(entries).None? <==> forall k :: 0 <= k < |entries| ==> entries[k].category != CommentCategory
  {
    if entries != [] {
      LatestCommentIn(entries[..|entries| - 1]);
    }
  }

  /** Clearing a reminder drops its date or its visits, a comment's only while it is the one that is set. */
  lemma {:induction false} ClearReminderIs(l: Lead, reminder: Reminder, stamp: Stamp)
    requires Step(l, Do(ClearReminder(reminder), stamp)).Ok?
    ensures var after := Step(l, Do(ClearReminder(reminder), stamp)).value;
            var category := if reminder == CommentReminder then CommentCategory else System;
            && after == l.(callbackDue := after.callbackDue, visits := after.visits,
                           entries := l.entries + [Entry(stamp.at, stamp.id, ReminderCleared, category, NoCode, None,
                                                         None, None, None, [])])
            && (reminder == CallbackReminder || reminder == ThinkingReminder ==>
                  after.callbackDue == None && after.visits == l.visits)
            && (reminder == ShowroomReminder ==>
                  after.callbackDue == l.callbackDue && Cancelled(l.visits, after.visits, Some(Showroom)))
            && (reminder == MeasurementReminder ==>
                  after.callbackDue == l.callbackDue && Cancelled(l.visits, after.visits, Some(Measurement)))
            && (reminder == CommentReminder ==>
                  && after.visits == l.visits
                  && (forall i: nat :: IsLatestComment(l.entries, i) ==>
                        after.callbackDue == if l.callbackDue == l.entries[i].due then None else l.callbackDue)
                  && ((forall k :: 0 <= k < |l.entries| ==> l.entries[k].category != CommentCategory) ==>
                        after.callbackDue == l.callbackDue))
  {
    LatestCommentIn(l.entries);
    forall i: nat | IsLatestComment(l.entries, i) ensures LatestComment(l.entries) == Some(i) {
      LatestCommentIs(l.entries, i);
    }
  }

  // ---- visits, duplicates, projects, archive -------------------------------------------------

  function SystemLine(stamp: Stamp): Entry {
    Entry(stamp.at, stamp.id, Other, System, NoCode, None, None, None, None, [])
  }

  /** A showroom visit or a measurement becomes the client status; office work only takes its place in the calendar. */
  lemma {:induction false} CreateVisitIs(l: Lead, kind: VisitKind, free: bool, stamp: Stamp)
    ensures var r := Step(l, CreateVisit(kind, free, stamp));
            var client := if kind == Showroom then ShowroomInvited else MeasurementScheduled;
            && (r.Ok? <==> && !l.archived && !IsClosed(l) && free
                           && (kind != OfficeWork ==>
                                 forall i :: 0 <= i < |l.visits| ==> l.visits[i] != Visit(kind, Scheduled)))
            && (r.Ok? && kind == OfficeWork ==>
                  r.value == l.(visits := l.visits + [Visit(kind, Scheduled)],
                                entries := l.entries + [SystemLine(stamp)]))
            && (r.Ok? && kind != OfficeWork ==>
                  r.value == l.(visits := l.visits + [Visit(kind, Scheduled)], client := client,
                                callbackDue := if l.call == Some(CallbackRequested) then l.callbackDue else None,
                                entries := l.entries + [Entry(stamp.at, stamp.id, AppointmentScheduled, ClientCategory,
                                                              ClientCode(client), None, None, None, None, [])]))
  {
    if !HasScheduled(l.visits, kind) {
      assert forall i :: 0 <= i < |l.visits| ==> l.visits[i] != Visit(kind, Scheduled);
    }
  }

  /** A scheduled visit may be closed, office work not; what is not scheduled keeps its status. */
  lemma {:induction false} UpdateVisitIs(l: Lead, i: nat, status: Option<VisitStatus>, stamp: Stamp)
    ensures var r := Step(l, UpdateVisit(i, status, stamp));
            && (r.Ok? <==> && i < |l.visits| && status != Some(Scheduled)
                           && (status != None ==> l.visits[i].kind != OfficeWork && l.visits[i].status == Scheduled))
            && (r.Ok? ==>
                  r.value == l.(visits := if status == None then l.visits
                                          else l.visits[i := Visit(l.visits[i].kind, status.value)],
                                entries := l.entries + [SystemLine(stamp)]))
  {
  }

  /** A duplicate is closed as lost, unless it was, and marked; a signed lead or one with a project is not. */
  lemma {:induction false} DuplicateIs(l: Lead, originalOk: bool, stamp: Stamp)
    ensures var r := Step(l, MarkDuplicate(originalOk, stamp));
            && (r.Ok? <==> && !l.archived && !l.duplicate && l.client != ContractSigned && l.v2 != Some(InProject)
                           && originalOk)
            && (r.Ok? && l.client == ClosedLost ==>
                  r.value == l.(duplicate := true, entries := l.entries + [SystemLine(stamp)]))
            && (r.Ok? && l.client != ClosedLost ==>
                  && r.value == l.(client := ClosedLost, v2 := Some(Lost), callbackDue := None, duplicate := true,
                                   visits := r.value.visits,
                                   entries := l.entries + [Entry(stamp.at, stamp.id, ClientChanged, ClientCategory,
                                                                 ClientCode(ClosedLost), None, None, Some(l.client),
                                                                 None, [])] + [SystemLine(stamp)])
                  && Cancelled(l.visits, r.value.visits, None))
  {
  }

  /** A project is created once, from a lead that is not lost, and takes over its v2 status. */
  lemma {:induction false} CreateProjectIs(l: Lead, managerOk: bool, stamp: Stamp)
    ensures var r := Step(l, CreateProject(managerOk, stamp));
            && (r.Ok? <==> !l.archived && !l.hasProject && l.client != ClosedLost && managerOk)
            && (r.Ok? ==>
                  r.value == l.(hasProject := true, v2 := Some(InProject), entries := l.entries + [SystemLine(stamp)]))
  {
  }

  /** Cancelling future visits and archiving cancel what is scheduled; archiving and its undoing are recorded once. */
  lemma {:induction false} ArchiveIs(l: Lead, stamp: Stamp)
    ensures var visits := After(l, CancelFutureEvents(stamp)).visits;
            && Cancelled(l.visits, visits, None)
            && After(l, CancelFutureEvents(stamp)) == l.(visits := visits, entries := l.entries + [SystemLine(stamp)])
            && After(l, Archive(stamp)) == l.(visits := visits, archived := true,
                                              entries := l.entries + if l.archived then [] else [SystemLine(stamp)])
    ensures After(l, Unarchive(stamp)) == l.(archived := false,
                                             entries := l.entries + if l.archived then [SystemLine(stamp)] else [])
  {
  }

  // ---- corrections ---------------------------------------------------------------------------

  /** The entry reads as a kind: what it is, and for a status entry which one. */
  predicate ReadsAs(e: Entry, kind: Kind) {
    match kind
    case Comment => e.what == CommentAdded
    case Thinking => e.what == ClientChanged && e.code == ClientCode(Client.Thinking)
    case Success => e.what == CallChanged && e.code == CallCode(Reached)
    case Later => e.what == CallChanged && e.code == CallCode(CallbackRequested)
    case NoAnswer => e.what == CallChanged && e.code == CallCode(Unanswered)
  }

  lemma {:induction false} ReadsAsOne(e: Entry, kind: Kind)
    ensures KindOfEntry(e) == Some(kind) <==> ReadsAs(e, kind)
  {
  }

  /** No other status entry is later, by time and then by id. */
  predicate IsLatestEntry(entries: seq<Entry>, i: nat) {
    && i < |entries| && entries[i].category in {CallCategory, ClientCategory}
    && forall k :: 0 <= k < |entries| && k != i && entries[k].category in {CallCategory, ClientCategory} ==>
         entries[k].at < entries[i].at || (entries[k].at == entries[i].at && entries[k].id < entries[i].id)
  }

  predicate IdsDiffer(entries: seq<Entry>) {
    forall i, j :: 0 <= i < j < |entries| ==> entries[i].id != entries[j].id
  }

  lemma {:induction false} LatestIs(l: Lead, i: nat)
    requires IdsDiffer(l.entries)
    ensures WasLatest(l, i) <==> IsLatestEntry(l.entries, i)
  {
    assert i < |l.entries| && IsLatestEntry(l.entries, i) ==> IsStatus(l.entries[i]);
    if WasLatest(l, i) {
      forall k | 0 <= k < |l.entries| && k != i && IsStatus(l.entries[k])
        ensures Before(l.entries[k], l.entries[i])
      {
        assert !Before(l.entries[i], l.entries[k]);
      }
    }
  }

  /** A comment that is strictly later than every status entry. */
  predicate LaterThanStatus(entries: seq<Entry>, i: nat) {
    && i < |entries|
    && forall k :: 0 <= k < |entries| && entries[k].category in {CallCategory, ClientCategory} ==>
         entries[k].at < entries[i].at
  }

  /** The lead follows a change of kind of its latest status entry, or of a comment into a status later than all. */
  predicate Followed(l: Lead, i: nat, current: Kind, kind: Kind) {
    && kind != current && !IsClosed(l)
    && (IsLatestEntry(l.entries, i) || (current == Comment && LaterThanStatus(l.entries, i)))
  }

  lemma {:induction false} FollowsIff(l: Lead, i: nat, current: Kind, kind: Kind)
    requires IdsDiffer(l.entries) && i < |l.entries|
    ensures LeadFollows(l, i, current, kind) <==> Followed(l, i, current, kind)
  {
    LatestIs(l, i);
    if LaterThanStatus(l.entries, i) && LatestStatus(l.entries).Some? {
      assert IsStatus(l.entries[LatestStatus(l.entries).value]);
    }
    if BecomesLatest(l, i, current, kind) && LatestStatus(l.entries).Some? {
      var latest := LatestStatus(l.entries).value;
      forall k | 0 <= k < |l.entries| && IsStatus(l.entries[k]) ensures l.entries[k].at < l.entries[i].at {
        assert !Before(l.entries[latest], l.entries[k]);
      }
    }
  }

  predicate Dated(kind: Kind) {
    kind == Kind.Later || kind == Kind.NoAnswer || kind == Kind.Thinking
  }

  function Asked(r: Request, current: Kind): Kind {
    if r.kind == None then current else r.kind.value
  }

  /** The text after the correction. */
  function AskedText(r: Request, comment: Option<string>): Option<string> {
    if r.comment == None then comment else r.comment.value
  }

  lemma {:induction false} CorrectionAcceptedIff(l: Lead, i: nat, r: Request, current: Kind)
    requires i < |l.entries| && ReadsAs(l.entries[i], current)
    ensures Step(l, Correct(i, r)).Ok?
       <==> && !l.archived && (r.kind != None || r.comment != None) && r.kind != Some(current)
            && (if Dated(Asked(r, current)) then r.kind != None ==> r.due != None else r.due == None)
            && (Asked(r, current) == Comment ==> AskedText(r, l.entries[i].comment) != None)
  {
    ReadsAsOne(l.entries[i], current);
  }

  lemma {:induction false} OthersAreNotCorrected(l: Lead, i: nat, r: Request)
    requires i < |l.entries| && forall kind :: !ReadsAs(l.entries[i], kind)
    ensures !Step(l, Correct(i, r)).Ok?
  {
    assert KindOfEntry(l.entries[i]).Some? ==> ReadsAs(l.entries[i], KindOfEntry(l.entries[i]).value);
  }

  /** The entry holds the new kind, text and date, and what it was before in its history. */
  lemma {:induction false} CorrectedEntryIs(l: Lead, i: nat, r: Request, current: Kind)
    requires IdsDiffer(l.entries) && i < |l.entries| && ReadsAs(l.entries[i], current) && Step(l, Correct(i, r)).Ok?
    ensures var before, after := l.entries[i], Step(l, Correct(i, r)).value;
            var kind := Asked(r, current);
            && |after.entries| == |l.entries| && after.entries == l.entries[i := after.entries[i]] &&
            var entry := after.entries[i];
            var remembers := Followed(l, i, current, kind) && !IsLatestEntry(l.entries, i);
            && ReadsAs(entry, kind) && entry.at == before.at && entry.id == before.id
            && entry.category == (if kind == Comment then CommentCategory
                                  else if kind == Kind.Thinking then ClientCategory else CallCategory)
            && (kind == Comment ==> entry.code == NoCode)
            && entry.comment == AskedText(r, before.comment)
            && entry.due == (if r.due != None then r.due else if kind == current then before.due else None)
            && entry.oldCall == (if remembers then l.call else before.oldCall)
            && entry.oldClient == (if remembers then Some(l.client) else before.oldClient)
            && entry.corrections == before.corrections + [Correction(current, kind)]
  {
    ReadsAsOne(l.entries[i], current);
    FollowsIff(l, i, current, Asked(r, current));
    LatestIs(l, i);
  }

  /**
   The lead that follows: what the latest entry did is taken back from what it remembers, then the new kind is done,
   and the date is the reminder. A new date alone moves the reminder of the latest entry. Otherwise the lead stays.
   */
  lemma {:induction false} CorrectedLeadIs(l: Lead, i: nat, r: Request, current: Kind)
    requires IdsDiffer(l.entries) && i < |l.entries| && ReadsAs(l.entries[i], current) && Step(l, Correct(i, r)).Ok?
    ensures var e, after, kind := l.entries[i], Step(l, Correct(i, r)).value, Asked(r, current);
            var was := IsLatestEntry(l.entries, i);
            var backCall := if was && current in {Kind.Success, Kind.Later, Kind.NoAnswer} then e.oldCall else l.call;
            var backClient := if !was || current != Kind.Thinking then l.client
                              else if e.oldClient == None then NewLead else e.oldClient.value;
            var counted := was && current == Kind.NoAnswer && l.attempts > 0;
            var backAttempts := l.attempts - if counted then 1 else 0;
            && after == l.(call := after.call, client := after.client, callbackDue := after.callbackDue,
                           v2 := after.v2, attempts := after.attempts, entries := after.entries)
            && (Followed(l, i, current, kind) ==>
                  && after.call == (if kind == Kind.Success then Some(Reached)
                                    else if kind == Kind.Later then Some(CallbackRequested)
                                    else if kind == Kind.NoAnswer then Some(Unanswered) else backCall)
                  && after.client == (if kind == Kind.Thinking then Client.Thinking else backClient)
                  && after.callbackDue == (if kind == Comment then None else r.due)
                  && after.v2 == Derive(after.client, after.call)
                  && after.attempts == backAttempts + if kind == Kind.NoAnswer then 1 else 0)
            && (!Followed(l, i, current, kind) ==>
                  after == l.(entries := after.entries,
                              callbackDue := if r.kind == None && r.due != None && was && !IsClosed(l) then r.due
                                             else l.callbackDue))
  {
    ReadsAsOne(l.entries[i], current);
    FollowsIff(l, i, current, Asked(r, current));
    LatestIs(l, i);
  }

  /** The v2 status that the v1 fields amount to, if any. */
  lemma {:induction false} DerivedIs(client: Client, call: Option<Call>)
    ensures client == NewLead ==>
              Derive(client, call) == Some(if call == Some(Reached) then V2.Success
                                           else if call == Some(CallbackRequested) then V2.Later
                                           else if call == Some(Unanswered) then V2.NoAnswer else New)
    ensures client == ShowroomInvited ==> Derive(client, call) == Some(Invited)
    ensures client == Client.Thinking ==> Derive(client, call) == Some(V2.Thinking)
    ensures client == ClosedLost ==> Derive(client, call) == Some(Lost)
    ensures client in {MeasurementScheduled, CalculationInProgress, Postponed, ContractSigned} ==>
              Derive(client, call) == None
  {
  }
}
