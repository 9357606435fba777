/**
 One lead row with its visits and timeline entries (internal/crmapi/activities.go, v2_status.go, appointments.go):
 the v1 call and client status, the v2 status that mirrors them, the reminder, the no-answer counter.
 */
module LeadModel {
  import opened Prelude

  type Time = int

  datatype Call = Reached | CallbackRequested | Unanswered

  datatype Client =
    | NewLead | ShowroomInvited | MeasurementScheduled | CalculationInProgress
    | Thinking | Postponed | ClosedLost | ContractSigned

  datatype V2 = New | Later | NoAnswer | Success | Thinking | Invited | Lost | InProject

  datatype VisitKind = Showroom | Measurement | OfficeWork
  datatype VisitStatus = Scheduled | Visited | NoShow | Canceled
  datatype Visit = Visit(kind: VisitKind, status: VisitStatus)

  datatype EntryType =
    | CallChanged | ClientChanged | CommentAdded | AppointmentScheduled
    | ReminderCleared | Reopened | QuestionAsked | RatingChanged | Other
  datatype Category = CallCategory | ClientCategory | CommentCategory | QuestionCategory | System
  datatype Code = NoCode | CallCode(call: Call) | ClientCode(client: Client) | OtherCode

  /** The five kinds of entry that can be corrected. */
  datatype Kind = Success | Later | NoAnswer | Thinking | Comment

  datatype Correction = Correction(from: Kind, to: Kind)

  /** `oldCall` and `oldClient` are what old_value holds, `due` is new_value's callback_due_at. */
  datatype Entry = Entry(at: Time, id: nat, what: EntryType, category: Category, code: Code, comment: Option<string>,
                         oldCall: Option<Call>, oldClient: Option<Client>, due: Option<Time>,
                         corrections: seq<Correction>)

  datatype Lead = Lead(call: Option<Call>, client: Client, callbackDue: Option<Time>, v2: Option<V2>, attempts: nat,
                       archived: bool, duplicate: bool, hasProject: bool, visits: seq<Visit>, entries: seq<Entry>)

  /** The v2 column has no default, so a new lead has no v2 status yet. */
  const NEW_LEAD := Lead(None, NewLead, None, None, 0, false, false, false, [], [])

  datatype Error =
    | Invalid | NotFound | Closed | InvalidTransition | Unchanged | Refused
    | AlreadyActive | Busy | NotCorrectable | ProjectExists | AlreadyDuplicate

  /** When and under which id an entry is stored. */
  datatype Stamp = Stamp(at: Time, id: nat)

  predicate Terminal(client: Client) {
    client.ClosedLost? || client.ContractSigned?
  }

  /** deriveV2LeadStatus: the v1 fields as one v2 status, where there is one. */
  function Derive(client: Client, call: Option<Call>): Option<V2> {
    match client
    case ShowroomInvited => Some(Invited)
    case Thinking => Some(V2.Thinking)
    case ClosedLost => Some(Lost)
    case NewLead =>
      Some(if call.None? then New
           else if call.value.CallbackRequested? then V2.Later
           else if call.value.Unanswered? then V2.NoAnswer
           else V2.Success)
    case _ => None
  }

  /** The v2 statuses that are call results, with the call status they write. */
  function CallOf(s: V2): Option<Call> {
    match s
    case Success => Some(Reached)
    case Later => Some(CallbackRequested)
    case NoAnswer => Some(Unanswered)
    case _ => None
  }

  /** The v2 statuses that are lead statuses, with the client status they write. */
  function ClientOf(s: V2): Option<Client> {
    match s
    case Thinking => Some(Client.Thinking)
    case Invited => Some(ShowroomInvited)
    case Lost => Some(ClosedLost)
    case _ => None
  }

  /**
   Deriving the v2 status from the v1 fields undoes what a v2 status writes to them, and never names a v2 status
   whose v1 fields are others.
   */
  lemma {:induction false} DeriveIsTheMirror(client: Client, call: Option<Call>, s: V2)
    requires !s.InProject?
    ensures Derive(client, call) == Some(s)
       <==> if ClientOf(s).Some? then client == ClientOf(s).value
            else client.NewLead? && call == CallOf(s)
  {
  }

  function CancelledVisit(v: Visit, kind: Option<VisitKind>): Visit {
    if v.status.Scheduled? && (kind.None? || v.kind == kind.value) then v.(status := Canceled) else v
  }

  /** Cancels the scheduled visits, of one kind or of all. */
  function CancelVisits(visits: seq<Visit>, kind: Option<VisitKind>): (r: seq<Visit>)
    ensures |r| == |visits|
    ensures forall i :: 0 <= i < |r| ==> r[i] == CancelledVisit(visits[i], kind)
  {
    if visits == [] then []
    else CancelVisits(visits[..|visits| - 1], kind) + [CancelledVisit(visits[|visits| - 1], kind)]
  }

  predicate HasScheduled(visits: seq<Visit>, kind: VisitKind) {
    exists i :: 0 <= i < |visits| && visits[i] == Visit(kind, Scheduled)
  }

  predicate NothingScheduled(visits: seq<Visit>) {
    forall i :: 0 <= i < |visits| ==> !visits[i].status.Scheduled?
  }

  /** scheduleLegacyAppointment moves the scheduled showroom visit when there is one. */
  function BookedShowroom(visits: seq<Visit>): seq<Visit> {
    if HasScheduled(visits, Showroom) then visits else visits + [Visit(Showroom, Scheduled)]
  }

  // ---- the timeline --------------------------------------------------------------------------

  predicate IsStatus(e: Entry) {
    e.category.CallCategory? || e.category.ClientCategory?
  }

  predicate Before(a: Entry, b: Entry) {
    a.at < b.at || (a.at == b.at && a.id < b.id)
  }

  /** The lead's latest status entry: by time, then by id. */
  function LatestStatus(entries: seq<Entry>): (i: Option<nat>)
    ensures i.Some? ==> i.value < |entries| && IsStatus(entries[i.value])
    ensures i.Some? ==> forall k :: 0 <= k < |entries| && IsStatus(entries[k]) ==> !Before(entries[i.value], entries[k])
    ensures i.None? ==> forall k :: 0 <= k < |entries| ==> !IsStatus(entries[k])
  {
    if entries == [] then None
    else
      var n := |entries| - 1;
      var i := LatestStatus(entries[..n]);
      if IsStatus(entries[n]) && (i.None? || Before(entries[i.value], entries[n])) then Some(n) else i
  }

  /** The reminder date of the latest comment entry, if it set one. */
  function CommentDue(entries: seq<Entry>): Option<Time> {
    if LatestComment(entries).Some? then entries[LatestComment(entries).value].due else None
  }

  function LatestComment(entries: seq<Entry>): (i: Option<nat>)
    ensures i.Some? ==> i.value < |entries| && entries[i.value].category.CommentCategory?
  {
    if entries == [] then None
    else
      var n := |entries| - 1;
      var i := LatestComment(entries[..n]);
      if entries[n].category.CommentCategory? && (i.None? || Before(entries[i.value], entries[n])) then Some(n) else i
  }

  // ---- invariants ----------------------------------------------------------------------------

  /** A closed lead has no reminder and no visit ahead. */
  predicate ClosedIsQuiet(l: Lead) {
    Terminal(l.client) ==> l.callbackDue.None? && NothingScheduled(l.visits)
  }

  /** What every writer keeps, the sheet import included. */
  predicate Coherent(l: Lead) {
    && ClosedIsQuiet(l)
    && (l.client.ClosedLost? <==> l.v2 == Some(Lost))
    && (l.duplicate ==> l.client.ClosedLost?)
  }

  /** A v2 status that is a call result, or none yet, is what the call status says. */
  predicate CallsMirrored(l: Lead) {
    && (l.v2.Some? && CallOf(l.v2.value).Some? ==> l.call == CallOf(l.v2.value))
    && (l.v2 == Some(New) ==> l.call.None?)
  }

  predicate Inv(l: Lead) {
    Coherent(l) && CallsMirrored(l)
  }
}
