/**
 The lead handlers as they run (internal/crmapi/activities.go, event_correction.go, appointments.go, duplicates.go,
 projects.go, leads.go): local copies of the row's fields changed branch by branch, then written back. Every one is
 proved to answer and to leave the row exactly as its step in `LeadState` says.
 */
module LeadDesk {
  import opened Prelude
  import opened LeadModel
  import opened EventCorrection
  import opened LeadState

  function Refusal(r: Result<Lead, Error>): Option<Error> {
    match r
    case Ok(_) => None
    case Err(e) => Some(e)
  }

  /** `e` on `before` answers `error` and leaves `after`. */
  predicate Handled(before: Lead, e: Event, error: Option<Error>, after: Lead) {
    error == Refusal(Step(before, e)) && after == After(before, e)
  }

  class Row {
    var call: Option<Call>
    var client: Client
    var callbackDue: Option<Time>
    var v2: Option<V2>
    var attempts: nat
    var archived: bool
    var duplicate: bool
    var hasProject: bool
    var visits: seq<Visit>
    var entries: seq<Entry>

    ghost function State(): Lead
      reads this
    {
      Lead(call, client, callbackDue, v2, attempts, archived, duplicate, hasProject, visits, entries)
    }

    constructor ()
      ensures State() == NEW_LEAD && Good(State())
    {
      call, client, callbackDue, v2, attempts := None, NewLead, None, None, 0;
      archived, duplicate, hasProject, visits, entries := false, false, false, [], [];
    }

    /** cancelScheduledAppointmentsForLead. */
    method CancelScheduled(kind: Option<VisitKind>)
      modifies this`visits
      ensures visits == CancelVisits(old(visits), kind)
    {
      for i := 0 to |visits|
        modifies this`visits
        invariant |visits| == |old(visits)|
        invariant forall k :: 0 <= k < |visits| ==>
                    visits[k] == if k < i then CancelledVisit(old(visits)[k], kind) else old(visits)[k]
      {
        if visits[i].status.Scheduled? && (kind.None? || visits[i].kind == kind.value) {
          visits := visits[i := visits[i].(status := Canceled)];
        }
      }
    }

    /** scheduleLegacyAppointment: move the scheduled showroom visit or add one. */
    method ScheduleLegacy()
      modifies this`visits
      ensures visits == BookedShowroom(old(visits))
    {
      if !HasScheduled(visits, Showroom) {
        visits := visits + [Visit(Showroom, Scheduled)];
      }
    }

    method Activity(a: Activity, stamp: Stamp) returns (error: Option<Error>)
      modifies this
      ensures Handled(old(State()), Do(a, stamp), error, State())
      ensures Good(old(State())) ==> Good(State())
    {
      if !ValidActivity(a) {
        return Some(Invalid);
      }
      if archived {
        return Some(NotFound);
      }
      if v2 == Some(InProject) && !a.AddComment? && !a.AskQuestion? {
        return Some(Closed);
      }
      var terminal := Terminal(client);
      if a.Reopen? {
        if !terminal {
          return Some(InvalidTransition);
        }
      } else if terminal && !a.AskQuestion? {
        return Some(Closed);
      }
      if a.ClientChange? && a.client == client && !a.client.ShowroomInvited? {
        return Some(Unchanged);
      }
      var refused := Apply(a, stamp);
      error := if refused then Some(Refused) else None;
      HandledKeepsGood(old(State()), Do(a, stamp), error, State());
    }

    /** The switch of applyLeadActivity: the row's fields copied, then changed for this activity. */
    method Change(a: Activity)
      returns (refused: bool, nextCall: Option<Call>, nextClient: Client, nextDue: Option<Time>, nextV2: Option<V2>,
               nextAttempts: nat, book: bool)
      requires ValidActivity(a)
      ensures refused == Refuses(a)
      ensures !refused ==>
                && nextCall == NextCall(State(), a) && nextClient == NextClient(State(), a)
                && nextDue == NextCallback(State(), a) && nextV2 == NextV2(State(), a)
                && nextAttempts == NextAttempts(State(), a)
                && book == ((a.ClientChange? && a.client.ShowroomInvited?) || (a.V2Change? && a.v2.Invited?))
    {
      refused, book := false, false;
      nextCall, nextClient, nextDue, nextV2, nextAttempts := call, client, callbackDue, v2, attempts;
      match a {
        case CallResult(status, due) =>
          nextCall := Some(status);
          if status.CallbackRequested? {
            nextDue := due;
          } else if !client.Thinking? && !client.Postponed? {
            nextDue := None;
          }
        case AddComment(_, due) =>
          if due.Some? {
            nextDue := due;
          }
        case ClearReminder(reminder) =>
          match reminder {
            case CallbackReminder => nextDue := None;
            case ThinkingReminder => nextDue := None;
            case CommentReminder =>
              var commentDue := CommentDue(entries);
              if callbackDue.Some? && commentDue.Some? && callbackDue.value == commentDue.value {
                nextDue := None;
              }
            case _ =>
          }
        case ClientChange(status, due, ok) =>
          nextClient := status;
          book := status.ShowroomInvited?;
          nextDue := ClientCallback(call, nextDue, status, due);
          refused := (book || status.ClosedLost?) && !ok;
        case Reopen =>
          nextClient, nextCall, nextDue := NewLead, None, None;
        case V2Change(status, due, ok) =>
          nextV2 := Some(status);
          if CallOf(status).Some? {
            nextCall, nextDue := CallOf(status), due;
            if status.NoAnswer? {
              nextAttempts := nextAttempts + 1;
            } else if status.Success? {
              nextAttempts := 0;
            }
          } else {
            nextClient := ClientOf(status).value;
            match status {
              case Thinking => nextDue := due;
              case Invited =>
                refused, book := !ok, true;
                nextDue := ClientCallback(call, nextDue, nextClient, due);
              case Lost =>
                refused := !ok;
                nextDue := None;
            }
          }
        case _ =>
      }
      if a.CallResult? || a.ClientChange? {
        nextV2 := Derive(nextClient, nextCall);
      } else if a.Reopen? {
        nextV2 := Some(New);
      }
    }

    /** applyLeadActivity. A failed lookup refuses the whole request before anything is written. */
    method Apply(a: Activity, stamp: Stamp) returns (refused: bool)
      requires ValidActivity(a)
      modifies this
      ensures refused == Refuses(a)
      ensures State() == if refused then old(State()) else AfterActivity(old(State()), a, stamp)
    {
      var nextCall, nextClient, nextDue, nextV2, nextAttempts, book;
      refused, nextCall, nextClient, nextDue, nextV2, nextAttempts, book := Change(a);
      if refused {
        return;
      }
      var entry := EntryOf(Lead(call, client, callbackDue, v2, attempts, archived, duplicate, hasProject, visits,
                                entries), a, stamp);
      call, client, callbackDue, v2, attempts := nextCall, nextClient, nextDue, nextV2, nextAttempts;
      entries := entries + [entry];
      if a.Reopen? {
        duplicate := false;
      }
      Visits(a, book);
    }

    /** The visits an activity books or cancels. */
    method Visits(a: Activity, book: bool)
      requires book == ((a.ClientChange? && a.client.ShowroomInvited?) || (a.V2Change? && a.v2.Invited?))
      modifies this`visits
      ensures visits == NextVisits(old(State()), a)
    {
      if book {
        ScheduleLegacy();
      }
      if (a.ClientChange? && Terminal(a.client)) || (a.V2Change? && a.v2.Lost?) {
        CancelScheduled(None);
      } else if a == ClearReminder(ShowroomReminder) {
        CancelScheduled(Some(Showroom));
      } else if a == ClearReminder(MeasurementReminder) {
        CancelScheduled(Some(Measurement));
      }
    }

    /** handleCorrectEvent. */
    method CorrectEvent(i: nat, r: Request) returns (error: Option<Error>)
      modifies this
      ensures Handled(old(State()), Correct(i, r), error, State())
      ensures Good(old(State())) ==> Good(State())
    {
      if archived || i >= |entries| {
        return Some(NotFound);
      }
      var found := KindOfEntry(entries[i]);
      if found.None? {
        return Some(NotCorrectable);
      }
      var current := found.value;
      var entry := entries[i];
      if !ValidRequest(r, current, entry.comment) {
        return Some(Invalid);
      }
      var kind := NextKind(r, current);
      var wasLatest, follows, rewritten := Rewrite(i, current, kind, NextComment(r, entry.comment), r.due);
      if follows {
        call, client, callbackDue, attempts := Follow(i, current, kind, r.due);
        v2 := Derive(client, call);
      } else if kind == current && r.due.Some? && wasLatest && !Terminal(client) {
        callbackDue := r.due;
      }
      entries := entries[i := rewritten];
      HandledKeepsGood(old(State()), Correct(i, r), None, State());
      return None;
    }

    /** The entry as it is stored after the correction, and whether the lead follows it. */
    method Rewrite(i: nat, current: Kind, kind: Kind, comment: Option<string>, due: Option<Time>)
      returns (wasLatest: bool, follows: bool, entry: Entry)
      requires i < |entries|
      ensures wasLatest == WasLatest(State(), i) && follows == LeadFollows(State(), i, current, kind)
      ensures entry == CorrectedEntry(State(), i, current, kind, comment, due)
    {
      entry := entries[i];
      var latest := LatestStatus(entries);
      wasLatest := latest == Some(i);
      var becomesLatest := false;
      if current.Comment? && !kind.Comment? {
        becomesLatest := true;
        if latest.Some? {
          becomesLatest := entry.at > entries[latest.value].at;
        }
      }
      follows := kind != current && (wasLatest || becomesLatest) && !Terminal(client);
      var nextDue, oldCall, oldClient := entry.due, entry.oldCall, entry.oldClient;
      if kind != current {
        nextDue := if kind.Comment? then None else due;
      } else if due.Some? {
        nextDue := due;
      }
      if follows && !wasLatest {
        // A comment becomes a status entry and keeps the lead's values to go back to.
        oldCall, oldClient := call, Some(client);
      }
      entry := entry.(what := TypeOf(kind), category := CategoryOf(kind), code := CodeOf(kind), comment := comment,
                      due := nextDue, oldCall := oldCall, oldClient := oldClient,
                      corrections := entry.corrections + [Correction(current, kind)]);
    }

    /** The lead after its latest status entry was `current` and is now `kind`. */
    method Follow(i: nat, current: Kind, kind: Kind, due: Option<Time>)
      returns (nextCall: Option<Call>, nextClient: Client, nextDue: Option<Time>, nextAttempts: nat)
      requires i < |entries|
      ensures FollowingLead(State(), i, current, kind, due)
           == State().(call := nextCall, client := nextClient, callbackDue := nextDue, attempts := nextAttempts,
                       v2 := Derive(nextClient, nextCall))
    {
      nextCall, nextClient, nextDue, nextAttempts := call, client, None, attempts;
      if LatestStatus(entries) == Some(i) {
        match CategoryOf(current) {
          case CallCategory => nextCall := entries[i].oldCall;
          case ClientCategory =>
            nextClient := if entries[i].oldClient.Some? then entries[i].oldClient.value else NewLead;
          case _ =>
        }
        if current.NoAnswer? && nextAttempts > 0 {
          nextAttempts := nextAttempts - 1;
        }
      }
      match CodeOf(kind) {
        case CallCode(code) => nextCall, nextDue := Some(code), due;
        case ClientCode(code) => nextClient, nextDue := code, due;
        case _ =>
      }
      if kind.NoAnswer? {
        nextAttempts := nextAttempts + 1;
      }
    }

    method CreateAppointment(kind: VisitKind, free: bool, stamp: Stamp) returns (error: Option<Error>)
      modifies this
      ensures Handled(old(State()), CreateVisit(kind, free, stamp), error, State())
      ensures Good(old(State())) ==> Good(State())
    {
      if archived || Terminal(client) {
        return Some(NotFound);
      }
      if !kind.OfficeWork? && HasScheduled(visits, kind) {
        return Some(AlreadyActive);
      }
      if !free {
        return Some(Busy);
      }
      visits := visits + [Visit(kind, Scheduled)];
      if kind.OfficeWork? {
        entries := entries + [SystemEntry(stamp)];
        HandledKeepsGood(old(State()), CreateVisit(kind, free, stamp), None, State());
        return None;
      }
      client := ClientOfVisit(kind);
      callbackDue := if call == Some(CallbackRequested) then callbackDue else None;
      entries := entries + [SystemEntry(stamp).(what := AppointmentScheduled, category := ClientCategory,
                                                code := ClientCode(client))];
      HandledKeepsGood(old(State()), CreateVisit(kind, free, stamp), None, State());
      return None;
    }

    method UpdateAppointment(i: nat, status: Option<VisitStatus>, stamp: Stamp) returns (error: Option<Error>)
      modifies this
      ensures Handled(old(State()), UpdateVisit(i, status, stamp), error, State())
      ensures Good(old(State())) ==> Good(State())
    {
      if i >= |visits| {
        return Some(NotFound);
      }
      if status == Some(Scheduled) || (visits[i].kind.OfficeWork? && status.Some?) {
        return Some(Invalid);
      }
      if !visits[i].status.Scheduled? && status.Some? {
        return Some(Closed);
      }
      var next := visits[i].status;
      if status.Some? {
        next := status.value;
      }
      visits := visits[i := visits[i].(status := next)];
      entries := entries + [SystemEntry(stamp)];
      HandledKeepsGood(old(State()), UpdateVisit(i, status, stamp), None, State());
      return None;
    }

    method Duplicate(originalOk: bool, stamp: Stamp) returns (error: Option<Error>)
      modifies this
      ensures Handled(old(State()), MarkDuplicate(originalOk, stamp), error, State())
      ensures Good(old(State())) ==> Good(State())
    {
      if archived {
        return Some(NotFound);
      }
      if duplicate {
        return Some(AlreadyDuplicate);
      }
      if client.ContractSigned? || v2 == Some(InProject) {
        return Some(Closed);
      }
      if !originalOk {
        return Some(Refused);
      }
      if !client.ClosedLost? {
        var refused := Apply(ClientChange(ClosedLost, None, true), stamp);
      }
      duplicate := true;
      entries := entries + [SystemEntry(stamp)];
      HandledKeepsGood(old(State()), MarkDuplicate(originalOk, stamp), None, State());
      return None;
    }

    method MakeProject(managerOk: bool, stamp: Stamp) returns (error: Option<Error>)
      modifies this
      ensures Handled(old(State()), CreateProject(managerOk, stamp), error, State())
      ensures Good(old(State())) ==> Good(State())
    {
      if archived {
        return Some(NotFound);
      }
      if hasProject {
        return Some(ProjectExists);
      }
      if client.ClosedLost? {
        return Some(Closed);
      }
      if !managerOk {
        return Some(Refused);
      }
      hasProject, v2 := true, Some(InProject);
      entries := entries + [SystemEntry(stamp)];
      HandledKeepsGood(old(State()), CreateProject(managerOk, stamp), None, State());
      return None;
    }

    method ArchiveLead(stamp: Stamp)
      modifies this
      ensures Handled(old(State()), Archive(stamp), None, State())
      ensures Good(old(State())) ==> Good(State())
    {
      CancelScheduled(None);
      if !archived {
        archived := true;
        entries := entries + [SystemEntry(stamp)];
      }
      HandledKeepsGood(old(State()), Archive(stamp), None, State());
    }
  }

  /** So every handler keeps what is proved of all runs. */
  lemma {:induction false} HandledKeepsGood(before: Lead, e: Event, error: Option<Error>, after: Lead)
    requires Handled(before, e, error, after)
    ensures Good(before) ==> Good(after)
  {
    if Good(before) {
      StepKeeps(before, e);
    }
  }
}
