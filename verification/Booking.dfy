/**
 Appointment booking (internal/crmapi/appointments.go) as interleaved transactions.

 A transaction takes row locks, then the per-manager advisory lock, then probes the committed
 table, then writes, then commits. Every statement is one step, and steps of different
 transactions interleave freely; a transaction may also roll back between any two steps.
 Locks are the sets a transaction holds, so ending the transaction releases all of them. The legacy
 showroom booking of an activity takes the lead and its row, but no advisory lock, and does not probe.
 */
module Booking {
  import opened Prelude

  type Manager = nat
  type LeadId = nat
  type VisitId = nat
  type TxId = nat

  datatype Kind = Showroom | Measurement | OfficeWork
  datatype Status = Scheduled | Visited | NoShow | Canceled | Rescheduled

  datatype Visit = Visit(lead: LeadId, kind: Kind, manager: Option<Manager>, startsAt: int, endsAt: int,
                         status: Status, version: int)

  datatype CreateRequest = CreateRequest(lead: LeadId, kind: Kind, manager: Manager, startsAt: int, minutes: int)

  /** A patch: an absent field keeps the stored value. */
  datatype UpdateRequest = UpdateRequest(startsAt: Option<int>, minutes: Option<int>, manager: Option<Manager>,
                                         status: Option<Status>)

  const MINUTE := 60

  predicate ValidDuration(minutes: int) {
    15 <= minutes <= 480 && minutes % 15 == 0
  }

  predicate TerminalStatus(s: Status) {
    s.Visited? || s.NoShow? || s.Canceled?
  }

  predicate VisitKind(k: Kind) {
    k.Showroom? || k.Measurement?
  }

  predicate ValidCreate(req: CreateRequest) {
    ValidDuration(req.minutes)
  }

  predicate ValidUpdate(req: UpdateRequest) {
    && (req.minutes.Some? ==> ValidDuration(req.minutes.value))
    && (req.status.Some? ==> TerminalStatus(req.status.value))
  }

  /** A closed appointment keeps its status; a row left in `rescheduled` accepts nothing. */
  predicate CanUpdate(current: Status, req: UpdateRequest) {
    current.Scheduled? || (TerminalStatus(current) && req.status.None?)
  }

  // ---- what one update request asks for ------------------------------------------------------

  /** The row an update writes over `current`. Go's integer division truncates toward zero. */
  function Planned(current: Visit, req: UpdateRequest): Visit {
    var start := if req.startsAt.Some? then req.startsAt.value else current.startsAt;
    var kept := Truncate(current.endsAt - current.startsAt, MINUTE);
    var end := if req.minutes.Some? then start + req.minutes.value * MINUTE
               else if req.startsAt.Some? then start + kept * MINUTE
               else current.endsAt;
    current.(startsAt := start, endsAt := end,
             manager := if req.manager.Some? then req.manager else current.manager,
             status := if req.status.Some? then req.status.value else current.status,
             version := current.version + 1)
  }

  function Truncate(n: int, d: int): int
    requires d > 0
  {
    if n >= 0 then n / d else -((-n) / d)
  }

  predicate SameSlot(a: Visit, b: Visit) {
    a.startsAt == b.startsAt && a.endsAt == b.endsAt && a.manager == b.manager
  }

  /** Availability is re-checked only when the booking stays scheduled and actually moves. */
  predicate NeedsProbe(current: Visit, next: Visit) {
    next.status.Scheduled? && next.manager.Some? && !SameSlot(current, next)
  }

  datatype UpdateError = VersionConflict | OfficeWorkStatus | TerminalConflict

  function PlanUpdateSpec(current: Visit, version: int, req: UpdateRequest): Result<(Visit, bool), UpdateError> {
    if current.version != version then Err(VersionConflict)
    else if current.kind.OfficeWork? && req.status.Some? then Err(OfficeWorkStatus)
    else if !CanUpdate(current.status, req) then Err(TerminalConflict)
    else Ok((Planned(current, req), NeedsProbe(current, Planned(current, req))))
  }

  /** The guards and `next*` variables of updateAppointment, in the order the handler runs them. */
  method PlanUpdate(current: Visit, version: int, req: UpdateRequest) returns (r: Result<(Visit, bool), UpdateError>)
    ensures r == PlanUpdateSpec(current, version, req)
  {
    if current.version != version {
      return Err(VersionConflict);
    }
    if current.kind.OfficeWork? && req.status.Some? {
      return Err(OfficeWorkStatus);
    }
    if !CanUpdate(current.status, req) {
      return Err(TerminalConflict);
    }
    var nextStart, nextEnd, nextManager, nextStatus :=
      current.startsAt, current.endsAt, current.manager, current.status;
    if req.startsAt.Some? {
      nextStart := req.startsAt.value;
      var duration := Truncate(current.endsAt - current.startsAt, MINUTE);
      if req.minutes.Some? {
        duration := req.minutes.value;
      }
      nextEnd := nextStart + duration * MINUTE;
    } else if req.minutes.Some? {
      nextEnd := nextStart + req.minutes.value * MINUTE;
    }
    if req.manager.Some? {
      nextManager := req.manager;
    }
    if req.status.Some? {
      nextStatus := req.status.value;
    }
    var movedInTime := nextStart != current.startsAt || nextEnd != current.endsAt;
    var probe := nextStatus.Scheduled? && nextManager.Some? && (movedInTime || nextManager != current.manager);
    var next := Visit(current.lead, current.kind, nextManager, nextStart, nextEnd, nextStatus, current.version + 1);
    r := Ok((next, probe));
  }

  /**
   No request puts a visit back on the calendar: an accepted update that leaves a row scheduled found it
   scheduled.
   */
  lemma {:induction false} UpdateNeverReschedules(current: Visit, version: int, req: UpdateRequest)
    requires ValidUpdate(req)
    requires PlanUpdateSpec(current, version, req).Ok?
    ensures var (next, probe) := PlanUpdateSpec(current, version, req).value;
            && next.lead == current.lead && next.kind == current.kind
            && (next.status.Scheduled? ==> current.status.Scheduled?)
            && (next.status.Scheduled? && next.manager.Some? && !probe ==> SameSlot(current, next))
  {
  }

  /** `after` is `before` with what the patch asks for, each field of it or the old one. */
  predicate Patched(before: Visit, req: UpdateRequest, after: Visit) {
    && after.lead == before.lead && after.kind == before.kind && after.version == before.version + 1
    && after.startsAt == (if req.startsAt.Some? then req.startsAt.value else before.startsAt)
    && after.manager == (if req.manager.Some? then req.manager else before.manager)
    && after.status == (if req.status.Some? then req.status.value else before.status)
    && (req.minutes.Some? ==> after.endsAt - after.startsAt == req.minutes.value * 60)
    && (req.minutes.None? && req.startsAt.None? ==> after.endsAt == before.endsAt)
    && (req.minutes.None? && req.startsAt.Some? ==>
          WholeMinutes(before.endsAt - before.startsAt, after.endsAt - after.startsAt))
  }

  /** `whole` is `seconds` without what is left of its last minute. */
  predicate WholeMinutes(seconds: int, whole: int) {
    whole % 60 == 0 && if seconds >= 0 then whole <= seconds < whole + 60 else whole - 60 < seconds <= whole
  }

  /** The start, the end or the manager of a scheduled visit with a manager changes. */
  predicate Moves(before: Visit, after: Visit) {
    && after.status == Scheduled && after.manager.Some?
    && (after.startsAt != before.startsAt || after.endsAt != before.endsAt || after.manager != before.manager)
  }

  predicate Updatable(current: Visit, version: int, req: UpdateRequest) {
    && current.version == version && (current.kind == OfficeWork ==> req.status == None)
    && (current.status == Scheduled
        || (req.status == None && current.status in {Visited, NoShow, Canceled}))
  }

  /** Which updates are accepted, what they write, and when the manager is asked. */
  lemma {:induction false} UpdateIs(current: Visit, version: int, req: UpdateRequest)
    ensures var plan := PlanUpdateSpec(current, version, req);
            && (plan.Ok? <==> Updatable(current, version, req))
            && (plan.Ok? ==> Patched(current, req, plan.value.0) && (plan.value.1 <==> Moves(current, plan.value.0)))
            && (plan == Err(VersionConflict) <==> current.version != version)
            && (plan == Err(OfficeWorkStatus) <==>
                  current.version == version && current.kind == OfficeWork && req.status.Some?)
  {
  }

  // ---- the table and its transactions --------------------------------------------------------

  type Table = map<VisitId, Visit>

  datatype Phase =
    | Opened     // rows locked, request guards passed
    | Locked     // advisory lock held, not probed yet
    | Ready      // may write
    | Unprobed   // a legacy booking, written without asking
    | Cancelling // cancels the lead's scheduled rows one by one

  /**
   `target` is the row being written (a fresh id for a create) and `plan` its new contents.
   `keys` are advisory lock keys, hashes of manager ids.
   */
  datatype Tx = Tx(phase: Phase, target: VisitId, plan: Visit, writes: Table,
                   leads: set<LeadId>, rows: set<VisitId>, keys: set<int>)

  /** `hash` is the 64-bit hash that turns a manager id into a lock key; it may collide. */
  datatype State = State(visits: Table, txs: map<TxId, Tx>, hash: map<Manager, int>)

  function KeyOf(hash: map<Manager, int>, m: Manager): int {
    if m in hash then hash[m] else m
  }

  predicate Intersects(a: Visit, b: Visit) {
    a.startsAt < b.endsAt && a.endsAt > b.startsAt
  }

  /** managerOverlapExists: a scheduled committed row of this manager, other than `except`, meets the range. */
  predicate Busy(visits: Table, except: VisitId, plan: Visit) {
    exists id :: id in visits && Clashes(visits, except, plan, id)
  }

  predicate Clashes(visits: Table, except: VisitId, plan: Visit, id: VisitId)
    requires id in visits
  {
    id != except && visits[id].status.Scheduled? && plan.manager.Some? && visits[id].manager == plan.manager
    && Intersects(visits[id], plan)
  }

  /** createAppointment's guard: the lead already has a scheduled visit of this kind. */
  predicate AlreadyActive(visits: Table, lead: LeadId, kind: Kind) {
    VisitKind(kind) && exists id :: id in visits && Active(visits[id], lead, kind)
  }

  predicate Active(v: Visit, lead: LeadId, kind: Kind) {
    v.lead == lead && v.kind == kind && v.status.Scheduled?
  }

  predicate LeadFree(s: State, lead: LeadId) {
    forall t :: t in s.txs ==> lead !in s.txs[t].leads
  }

  predicate RowFree(s: State, id: VisitId) {
    forall t :: t in s.txs ==> id !in s.txs[t].rows
  }

  predicate KeyFree(s: State, key: int) {
    forall t :: t in s.txs ==> key !in s.txs[t].keys
  }

  /** A row id no committed row and no transaction uses: gen_random_uuid(). */
  predicate Unused(s: State, id: VisitId) {
    id !in s.visits && forall t :: t in s.txs ==> s.txs[t].target != id && id !in s.txs[t].writes
  }

  /** A scheduled booking of this manager, not `except`, starts before the range ends and ends after it starts. */
  predicate Taken(visits: Table, except: VisitId, manager: Option<Manager>, startsAt: int, endsAt: int) {
    manager.Some? && exists id :: id in visits && id != except && visits[id].status == Scheduled
                                  && visits[id].manager == manager
                                  && visits[id].startsAt < endsAt && startsAt < visits[id].endsAt
  }

  lemma {:induction false} BusyIs(visits: Table, except: VisitId, plan: Visit)
    ensures Busy(visits, except, plan) <==> Taken(visits, except, plan.manager, plan.startsAt, plan.endsAt)
  {
    forall id | id in visits
      ensures Clashes(visits, except, plan, id) <==>
                && id != except && visits[id].status == Scheduled && plan.manager.Some?
                && visits[id].manager == plan.manager
                && visits[id].startsAt < plan.endsAt && plan.startsAt < visits[id].endsAt
    {
    }
  }

  /** A scheduled showroom visit or measurement of the lead, of the kind asked for. */
  predicate HasVisit(visits: Table, lead: LeadId, kind: Kind) {
    && (kind == Showroom || kind == Measurement)
    && exists id :: id in visits && visits[id].lead == lead && visits[id].kind == kind && visits[id].status == Scheduled
  }

  lemma {:induction false} AlreadyActiveIs(visits: Table, lead: LeadId, kind: Kind)
    ensures AlreadyActive(visits, lead, kind) <==> HasVisit(visits, lead, kind)
  {
    forall id | id in visits
      ensures Active(visits[id], lead, kind) <==>
                visits[id].lead == lead && visits[id].kind == kind && visits[id].status == Scheduled
    {
    }
  }

  datatype Event =
    | BeginCreate(t: TxId, id: VisitId, create: CreateRequest)
    | BeginUpdate(t: TxId, id: VisitId, version: int, update: UpdateRequest)
    | BeginCancel(t: TxId, lead: LeadId)
    | LockManager(t: TxId)
    | Probe(t: TxId)
    | Write(t: TxId)
    | WriteLegacy(t: TxId, id: VisitId, lead: LeadId, manager: Manager, startsAt: int)
    | CancelRow(t: TxId, id: VisitId, kinds: set<Kind>)
    | Commit(t: TxId)
    | Rollback(t: TxId)

  function Blank(lead: LeadId): Visit {
    Visit(lead, OfficeWork, None, 0, 0, Canceled, 1)
  }

  function Drop(s: State, t: TxId): State {
    s.(txs := s.txs - {t})
  }

  function Put(s: State, t: TxId, tx: Tx): State {
    s.(txs := s.txs[t := tx])
  }

  /** scheduleLegacyAppointment: one hour, over the lead's scheduled showroom row or as a new one. */
  function LegacyRow(visits: Table, id: VisitId, lead: LeadId, manager: Manager, startsAt: int): Visit {
    Visit(lead, Showroom, Some(manager), startsAt, startsAt + 60 * MINUTE, Scheduled,
          if id in visits then visits[id].version + 1 else 1)
  }

  /** `id` is the lead's scheduled showroom row, not locked by another, or a new id when there is none. */
  predicate LegacyTarget(s: State, id: VisitId, lead: LeadId) {
    if id in s.visits then Active(s.visits[id], lead, Showroom) && RowFree(s, id)
    else Unused(s, id) && !AlreadyActive(s.visits, lead, Showroom)
  }

  /** One step. A step whose lock is taken or whose transaction is elsewhere leaves the state alone. */
  function Next(s: State, e: Event): State {
    match e
    case BeginCreate(t, id, req) =>
      if t in s.txs || !ValidCreate(req) || !LeadFree(s, req.lead) || !Unused(s, id)
         || AlreadyActive(s.visits, req.lead, req.kind) then s
      else
        var plan := Visit(req.lead, req.kind, Some(req.manager), req.startsAt, req.startsAt + req.minutes * MINUTE,
                          Scheduled, 1);
        Put(s, t, Tx(Opened, id, plan, map[], {req.lead}, {}, {}))
    case BeginUpdate(t, id, version, req) =>
      if t in s.txs || !ValidUpdate(req) || id !in s.visits || !RowFree(s, id) || !LeadFree(s, s.visits[id].lead) then s
      else
        var plan := PlanUpdateSpec(s.visits[id], version, req);
        if plan.Err? then s
        else
          var phase := if plan.value.1 then Opened else Ready;
          Put(s, t, Tx(phase, id, plan.value.0, map[], {s.visits[id].lead}, {id}, {}))
    case BeginCancel(t, lead) =>
      if t in s.txs then s else Put(s, t, Tx(Cancelling, 0, Blank(lead), map[], {}, {}, {}))
    case LockManager(t) =>
      if t !in s.txs || !s.txs[t].phase.Opened? || s.txs[t].plan.manager.None?
         || !KeyFree(s, KeyOf(s.hash, s.txs[t].plan.manager.value)) then s
      else Put(s, t, s.txs[t].(phase := Locked, keys := {KeyOf(s.hash, s.txs[t].plan.manager.value)}))
    case Probe(t) =>
      if t !in s.txs || !s.txs[t].phase.Locked? then s
      else if Busy(s.visits, s.txs[t].target, s.txs[t].plan) then Drop(s, t)
      else Put(s, t, s.txs[t].(phase := Ready))
    case Write(t) =>
      if t !in s.txs || !s.txs[t].phase.Ready? then s
      else Put(s, t, s.txs[t].(writes := map[s.txs[t].target := s.txs[t].plan]))
    case WriteLegacy(t, id, lead, manager, startsAt) =>
      if t in s.txs || !LeadFree(s, lead) || !LegacyTarget(s, id, lead) then s
      else
        var row := LegacyRow(s.visits, id, lead, manager, startsAt);
        Put(s, t, Tx(Unprobed, id, row, map[id := row], {lead}, if id in s.visits then {id} else {}, {}))
    case CancelRow(t, id, kinds) =>
      if t !in s.txs || !s.txs[t].phase.Cancelling? || id !in s.visits || !RowFree(s, id)
         || s.visits[id].lead != s.txs[t].plan.lead || !s.visits[id].status.Scheduled?
         || s.visits[id].kind !in kinds then s
      else
        var v := s.visits[id];
        Put(s, t, s.txs[t].(rows := s.txs[t].rows + {id},
                            writes := s.txs[t].writes[id := v.(status := Canceled, version := v.version + 1)]))
    case Commit(t) =>
      if t !in s.txs then s else Drop(s, t).(visits := s.visits + s.txs[t].writes)
    case Rollback(t) =>
      Drop(s, t)
  }

  function Run(s: State, events: seq<Event>): State
    decreases |events|
  {
    if events == [] then s else Run(Next(s, events[0]), events[1..])
  }

  // ---- safety --------------------------------------------------------------------------------

  /** Two committed, scheduled appointments of one manager whose times meet. */
  predicate Overlapping(visits: Table, a: VisitId, b: VisitId) {
    && a in visits && b in visits && a != b
    && visits[a].status.Scheduled? && visits[b].status.Scheduled?
    && visits[a].manager.Some? && visits[a].manager == visits[b].manager
    && Intersects(visits[a], visits[b])
  }

  /** Two committed, scheduled visits of one lead and one visit kind. */
  predicate Doubled(visits: Table, a: VisitId, b: VisitId) {
    && a in visits && b in visits && a != b && VisitKind(visits[a].kind)
    && Active(visits[a], visits[b].lead, visits[b].kind) && visits[b].status.Scheduled?
  }

  predicate During(v: Visit, t: int) {
    v.startsAt <= t < v.endsAt
  }

  /** Overlapping bookings of a manager that take any time at all take some time both. */
  lemma {:induction false} OverlappingIs(visits: Table, a: VisitId, b: VisitId)
    requires a in visits && b in visits && a != b && visits[a].status == Scheduled && visits[b].status == Scheduled
    requires visits[a].startsAt < visits[a].endsAt && visits[b].startsAt < visits[b].endsAt
    ensures Overlapping(visits, a, b)
       <==> && visits[a].manager.Some? && visits[a].manager == visits[b].manager
            && exists t :: During(visits[a], t) && During(visits[b], t)
  {
    var later := if visits[a].startsAt >= visits[b].startsAt then visits[a].startsAt else visits[b].startsAt;
    if Overlapping(visits, a, b) {
      assert During(visits[a], later) && During(visits[b], later);
    }
  }

  ghost predicate NoNewOverlap(before: Table, after: Table) {
    forall a, b :: Overlapping(after, a, b) ==> Overlapping(before, a, b)
  }

  ghost predicate NoNewDouble(before: Table, after: Table) {
    forall a, b :: Doubled(after, a, b) ==> Doubled(before, a, b)
  }

  /** The write keeps a scheduled row where it is (or does not schedule anything). */
  predicate KeepsSlot(visits: Table, id: VisitId, w: Visit) {
    id in visits && visits[id].status.Scheduled? && SameSlot(visits[id], w)
    && visits[id].lead == w.lead && visits[id].kind == w.kind
  }

  /** What is written needs no key, or the manager's key is held. */
  predicate Keyed(visits: Table, hash: map<Manager, int>, tx: Tx) {
    tx.plan.status.Scheduled? && tx.plan.manager.Some? ==>
      KeepsSlot(visits, tx.target, tx.plan) || KeyOf(hash, tx.plan.manager.value) in tx.keys
  }

  /** Committing the write now would make nothing overlap that does not overlap already. */
  predicate ClearWrite(visits: Table, id: VisitId, w: Visit) {
    w.status.Scheduled? && w.manager.Some? ==> KeepsSlot(visits, id, w) || !Busy(visits, id, w)
  }

  /** The lead row is locked and no other scheduled visit of this kind exists for it. */
  predicate OnlyVisit(visits: Table, tx: Tx, id: VisitId, w: Visit) {
    && w.lead in tx.leads
    && ((id in visits && Active(visits[id], w.lead, w.kind)) || !AlreadyActive(visits, w.lead, w.kind))
  }

  /** The row a transaction writes is locked by it, or new and known to it alone. */
  predicate Owns(visits: Table, tx: Tx, id: VisitId) {
    id in tx.rows || (id == tx.target && id !in visits)
  }

  ghost predicate WriterInv(visits: Table, hash: map<Manager, int>, tx: Tx) {
    && Owns(visits, tx, tx.target)
    && (tx.plan.status.Scheduled? ==> OnlyVisit(visits, tx, tx.target, tx.plan))
    && (tx.phase.Opened? || tx.phase.Locked? ==> tx.plan.status.Scheduled? && tx.plan.manager.Some?)
    && (tx.phase.Locked? ==> KeyOf(hash, tx.plan.manager.value) in tx.keys)
    && (tx.phase.Ready? ==> Keyed(visits, hash, tx))
    && (tx.phase.Unprobed? ==>
          tx.plan.status.Scheduled? && tx.plan.manager.Some? && tx.writes == map[tx.target := tx.plan])
    && (tx.writes == map[] || ((tx.phase.Ready? || tx.phase.Unprobed?) && tx.writes == map[tx.target := tx.plan]))
  }

  ghost predicate CancelInv(tx: Tx) {
    tx.writes.Keys <= tx.rows && forall id :: id in tx.writes ==> tx.writes[id].status.Canceled?
  }

  ghost predicate TxInv(visits: Table, hash: map<Manager, int>, tx: Tx) {
    && tx.rows <= visits.Keys
    && (if tx.phase.Cancelling? then CancelInv(tx) else WriterInv(visits, hash, tx))
  }

  /** Two transactions hold no lock in common and write no row in common. */
  predicate Apart(a: Tx, b: Tx) {
    && a.leads !! b.leads && a.rows !! b.rows && a.keys !! b.keys
    && (!a.phase.Cancelling? && !b.phase.Cancelling? ==> a.target != b.target)
  }

  ghost predicate Inv(s: State) {
    && (forall t :: t in s.txs ==> TxInv(s.visits, s.hash, s.txs[t]))
    && (forall t, u :: t in s.txs && u in s.txs && t != u ==> Apart(s.txs[t], s.txs[u]))
  }

  /** No in-flight booking that has passed its probe, or needs none, has come to clash with the table. */
  ghost predicate Clear(s: State) {
    forall t :: t in s.txs && s.txs[t].phase.Ready? ==> ClearWrite(s.visits, s.txs[t].target, s.txs[t].plan)
  }

  lemma {:induction false} StepKeepsInv(s: State, e: Event)
    requires Inv(s)
    ensures Inv(Next(s, e))
  {
    match e
    case Commit(t) => CommitKeepsInv(s, t);
    case Rollback(_) =>
    case BeginCreate(t, _, _) => PutKeepsInv(s, e, t);
    case BeginUpdate(t, _, _, _) => PutKeepsInv(s, e, t);
    case BeginCancel(t, _) => PutKeepsInv(s, e, t);
    case LockManager(t) => PutKeepsInv(s, e, t);
    case Probe(t) => PutKeepsInv(s, e, t);
    case Write(t) => PutKeepsInv(s, e, t);
    case WriteLegacy(t, _, _, _, _) => PutKeepsInv(s, e, t);
    case CancelRow(t, _, _) => PutKeepsInv(s, e, t);
  }

  /** A cancellation takes the scheduled rows of its lead and of the kinds, one by one, when nobody holds them. */
  lemma {:induction false} CancelRowWrites(s: State, t: TxId, id: VisitId, kinds: set<Kind>)
    requires t in s.txs && s.txs[t].phase.Cancelling?
    ensures var after := Next(s, CancelRow(t, id, kinds));
            var cancels := && id in s.visits && s.visits[id].lead == s.txs[t].plan.lead
                           && s.visits[id].status == Scheduled && s.visits[id].kind in kinds
                           && forall u :: u in s.txs ==> id !in s.txs[u].rows;
            if !cancels then after == s
            else && id in after.txs[t].writes
                 && after.txs[t].writes[id] == s.visits[id].(status := Canceled, version := s.visits[id].version + 1)
                 && after == s.(txs := s.txs[t := s.txs[t].(rows := s.txs[t].rows + {id},
                                                            writes := s.txs[t].writes[id := after.txs[t].writes[id]])])
  {
  }

  /** Every step but a commit or a rollback changes at most its own transaction. */
  lemma {:induction false} OthersUntouched(s: State, e: Event)
    requires !e.Commit? && !e.Rollback?
    ensures Next(s, e).visits == s.visits && Next(s, e).hash == s.hash
    ensures forall u :: u in Next(s, e).txs && u != e.t ==> u in s.txs && Next(s, e).txs[u] == s.txs[u]
  {
  }

  lemma {:induction false} PutKeepsInv(s: State, e: Event, t: TxId)
    requires Inv(s)
    requires e.t == t && !e.Commit? && !e.Rollback?
    ensures Inv(Next(s, e))
  {
    var s' := Next(s, e);
    OthersUntouched(s, e);
    forall u | u in s'.txs ensures TxInv(s'.visits, s'.hash, s'.txs[u]) {
      if u == t {
        OwnTxInv(s, e, t);
      }
    }
    forall u, v | u in s'.txs && v in s'.txs && u != v ensures Apart(s'.txs[u], s'.txs[v]) {
      if u == t {
        StaysApart(s, e, t, v);
      } else if v == t {
        StaysApart(s, e, t, u);
      }
    }
  }

  lemma {:induction false} OwnTxInv(s: State, e: Event, t: TxId)
    requires Inv(s)
    requires e.t == t && !e.Commit? && !e.Rollback?
    ensures t in Next(s, e).txs ==> TxInv(s.visits, s.hash, Next(s, e).txs[t])
  {
  }

  predicate Begins(e: Event) {
    e.BeginCreate? || e.BeginUpdate? || e.BeginCancel? || e.WriteLegacy?
  }

  lemma {:induction false} BeginsApart(s: State, e: Event, u: TxId)
    requires Inv(s) && Begins(e) && e.t in Next(s, e).txs && u in s.txs && u != e.t
    ensures Apart(Next(s, e).txs[e.t], s.txs[u]) && Apart(s.txs[u], Next(s, e).txs[e.t])
  {
    if e.t in s.txs {
      assert Apart(s.txs[e.t], s.txs[u]);
    }
  }

  lemma {:induction false} StaysApart(s: State, e: Event, t: TxId, u: TxId)
    requires Inv(s)
    requires e.t == t && !e.Commit? && !e.Rollback? && t in Next(s, e).txs
    requires u in s.txs && u != t
    ensures Apart(Next(s, e).txs[t], s.txs[u]) && Apart(s.txs[u], Next(s, e).txs[t])
  {
    if Begins(e) {
      BeginsApart(s, e, u);
    } else {
      assert Apart(s.txs[t], s.txs[u]) && Apart(s.txs[u], s.txs[t]);
    }
  }

  lemma {:induction false} CommitKeepsInv(s: State, t: TxId)
    requires Inv(s)
    ensures Inv(Next(s, Commit(t)))
  {
    if t in s.txs {
      forall u | u in s.txs && u != t ensures TxInv(Next(s, Commit(t)).visits, s.hash, s.txs[u]) {
        CommitKeepsOther(s, t, u);
      }
    }
  }

  /** A commit schedules no second visit for a lead whose row another transaction holds. */
  lemma {:induction false} CommitKeepsOnlyVisit(s: State, t: TxId, u: TxId, w: Visit)
    requires Inv(s) && t in s.txs && u in s.txs && t != u && !s.txs[u].phase.Cancelling?
    requires OnlyVisit(s.visits, s.txs[u], s.txs[u].target, w)
    ensures OnlyVisit(Next(s, Commit(t)).visits, s.txs[u], s.txs[u].target, w)
  {
    var tx, id := s.txs[t], s.txs[u].target;
    var after := Next(s, Commit(t)).visits;
    assert TxInv(s.visits, s.hash, tx) && TxInv(s.visits, s.hash, s.txs[u]) && Apart(tx, s.txs[u]);
    assert id !in tx.writes;
    if !(id in s.visits && Active(s.visits[id], w.lead, w.kind)) && VisitKind(w.kind) {
      forall other | other in after ensures !Active(after[other], w.lead, w.kind) {
        if other in tx.writes && !tx.phase.Cancelling? {
          assert other == tx.target && after[other] == tx.plan;
        }
      }
    }
  }

  /** Committing one transaction cannot invalidate what another has locked and probed. */
  lemma {:induction false} CommitKeepsOther(s: State, t: TxId, u: TxId)
    requires Inv(s) && t in s.txs && u in s.txs && t != u
    ensures TxInv(Next(s, Commit(t)).visits, s.hash, s.txs[u])
  {
    var tx, other := s.txs[t], s.txs[u];
    assert TxInv(s.visits, s.hash, tx) && TxInv(s.visits, s.hash, other) && Apart(tx, other);
    if !other.phase.Cancelling? {
      assert other.target !in tx.writes;
      if OnlyVisit(s.visits, other, other.target, other.plan) {
        CommitKeepsOnlyVisit(s, t, u, other.plan);
      }
    }
  }

  predicate CommitsLegacy(s: State, e: Event) {
    e.Commit? && e.t in s.txs && s.txs[e.t].phase.Unprobed?
  }

  /**
   The legacy booking of `t` can be committed: it makes nothing overlap, and no booking that was probed before it
   and is still in flight clashes with it.
   */
  predicate Harmless(s: State, t: TxId)
    requires t in s.txs
  {
    var row := s.txs[t].plan;
    && ClearWrite(s.visits, s.txs[t].target, row)
    && forall u :: u in s.txs && s.txs[u].phase.Ready? && s.txs[u].plan.status.Scheduled? ==> !Meets(s.txs[u].plan, row)
  }

  /** Two bookings of one manager at one time. */
  predicate Meets(a: Visit, b: Visit) {
    a.manager.Some? && a.manager == b.manager && Intersects(a, b)
  }

  predicate Harmful(s: State, e: Event) {
    CommitsLegacy(s, e) && !Harmless(s, e.t)
  }

  /** A commit, unless it is a harmful legacy one, clashes with no booking that another transaction has cleared. */
  lemma {:induction false} CommitKeepsProbe(s: State, t: TxId, u: TxId)
    requires Inv(s) && t in s.txs && u in s.txs && t != u && s.txs[u].phase.Ready?
    requires ClearWrite(s.visits, s.txs[u].target, s.txs[u].plan) && !Harmful(s, Commit(t))
    ensures ClearWrite(Next(s, Commit(t)).visits, s.txs[u].target, s.txs[u].plan)
  {
    var tx, id, w := s.txs[t], s.txs[u].target, s.txs[u].plan;
    var after := Next(s, Commit(t)).visits;
    assert TxInv(s.visits, s.hash, tx) && TxInv(s.visits, s.hash, s.txs[u]) && Apart(tx, s.txs[u]);
    assert id !in tx.writes;
    if w.status.Scheduled? && w.manager.Some? && !KeepsSlot(s.visits, id, w) {
      forall other | other in after ensures !Clashes(after, id, w, other) {
        if other in tx.writes && !tx.phase.Cancelling? {
          assert other == tx.target && after[other] == tx.plan;
        }
      }
    }
  }

  lemma {:induction false} OverlapIsClash(visits: Table, id: VisitId, w: Visit, other: VisitId)
    requires Overlapping(visits[id := w], id, other) || Overlapping(visits[id := w], other, id)
    ensures other in visits && Clashes(visits, id, w, other) && Busy(visits, id, w)
  {
  }

  lemma {:induction false} ClearWriteMakesNoOverlap(visits: Table, id: VisitId, w: Visit, a: VisitId, b: VisitId)
    requires ClearWrite(visits, id, w) && Overlapping(visits[id := w], a, b)
    ensures Overlapping(visits, a, b)
  {
    if a == id {
      OverlapIsClash(visits, id, w, b);
    } else if b == id {
      OverlapIsClash(visits, id, w, a);
    }
  }

  lemma {:induction false} CancellingMakesNoOverlap(visits: Table, writes: Table, a: VisitId, b: VisitId)
    requires (forall id :: id in writes ==> writes[id].status.Canceled?) && Overlapping(visits + writes, a, b)
    ensures Overlapping(visits, a, b)
  {
  }

  predicate ClearTx(visits: Table, tx: Tx) {
    tx.phase.Cancelling? || tx.writes == map[] || ClearWrite(visits, tx.target, tx.plan)
  }

  lemma {:induction false} WritesMakeNoOverlap(visits: Table, hash: map<Manager, int>, tx: Tx, a: VisitId, b: VisitId)
    requires TxInv(visits, hash, tx) && ClearTx(visits, tx) && Overlapping(visits + tx.writes, a, b)
    ensures Overlapping(visits, a, b)
  {
    if tx.phase.Cancelling? || tx.writes == map[] {
      CancellingMakesNoOverlap(visits, tx.writes, a, b);
    } else {
      assert visits + tx.writes == visits[tx.target := tx.plan];
      ClearWriteMakesNoOverlap(visits, tx.target, tx.plan, a, b);
    }
  }

  lemma {:induction false} CommitMakesNoOverlap(s: State, t: TxId, a: VisitId, b: VisitId)
    requires Inv(s) && t in s.txs && ClearTx(s.visits, s.txs[t])
    requires Overlapping(Next(s, Commit(t)).visits, a, b)
    ensures Overlapping(s.visits, a, b)
  {
    assert TxInv(s.visits, s.hash, s.txs[t]);
    WritesMakeNoOverlap(s.visits, s.hash, s.txs[t], a, b);
  }

  lemma {:induction false} WritesMakeNoDouble(visits: Table, hash: map<Manager, int>, tx: Tx, a: VisitId, b: VisitId)
    requires TxInv(visits, hash, tx) && Doubled(visits + tx.writes, a, b)
    ensures Doubled(visits, a, b)
  {
    if !tx.phase.Cancelling? && tx.writes != map[] {
      assert visits + tx.writes == visits[tx.target := tx.plan];
      assert a == tx.target ==> b in visits && b != tx.target;
      assert b == tx.target ==> a in visits && a != tx.target;
    }
  }

  lemma {:induction false} CommitMakesNoDouble(s: State, t: TxId, a: VisitId, b: VisitId)
    requires Inv(s) && t in s.txs
    requires Doubled(Next(s, Commit(t)).visits, a, b)
    ensures Doubled(s.visits, a, b)
  {
    assert TxInv(s.visits, s.hash, s.txs[t]);
    WritesMakeNoDouble(s.visits, s.hash, s.txs[t], a, b);
  }

  lemma {:induction false} StepMakesNoDouble(s: State, e: Event)
    requires Inv(s)
    ensures NoNewDouble(s.visits, Next(s, e).visits)
  {
    if e.Commit? && e.t in s.txs {
      forall a, b | Doubled(Next(s, e).visits, a, b) ensures Doubled(s.visits, a, b) {
        CommitMakesNoDouble(s, e.t, a, b);
      }
    }
  }

  lemma {:induction false} StepMakesNoOverlap(s: State, e: Event)
    requires Inv(s) && Clear(s) && !Harmful(s, e)
    ensures NoNewOverlap(s.visits, Next(s, e).visits)
  {
    if e.Commit? && e.t in s.txs {
      assert TxInv(s.visits, s.hash, s.txs[e.t]);
      forall a, b | Overlapping(Next(s, e).visits, a, b) ensures Overlapping(s.visits, a, b) {
        CommitMakesNoOverlap(s, e.t, a, b);
      }
    }
  }

  lemma {:induction false} StepKeepsClear(s: State, e: Event)
    requires Inv(s) && Clear(s) && !Harmful(s, e)
    ensures Clear(Next(s, e))
  {
    var s' := Next(s, e);
    forall u | u in s'.txs && s'.txs[u].phase.Ready? ensures ClearWrite(s'.visits, s'.txs[u].target, s'.txs[u].plan) {
      if e.Commit? {
        if e.t in s.txs {
          CommitKeepsProbe(s, e.t, u);
        }
      } else if !e.Rollback? {
        OthersUntouched(s, e);
        if u == e.t {
          OwnClear(s, e);
        }
      }
    }
  }

  lemma {:induction false} OwnClear(s: State, e: Event)
    requires Clear(s) && !e.Commit? && !e.Rollback? && e.t in Next(s, e).txs && Next(s, e).txs[e.t].phase.Ready?
    ensures ClearWrite(s.visits, Next(s, e).txs[e.t].target, Next(s, e).txs[e.t].plan)
  {
  }

  /** A database with no transaction in flight. The stored rows are arbitrary, old conflicts included. */
  predicate Quiet(s: State) {
    s.txs == map[]
  }

  /** In no step of the run is a harmful legacy booking committed. */
  predicate NeverHarmful(s: State, events: seq<Event>)
    decreases |events|
  {
    events != [] ==> !Harmful(s, events[0]) && NeverHarmful(Next(s, events[0]), events[1..])
  }

  lemma {:induction false} RunKeeps(s: State, events: seq<Event>)
    requires Inv(s)
    ensures Inv(Run(s, events)) && NoNewDouble(s.visits, Run(s, events).visits)
    decreases |events|
  {
    if events != [] {
      StepKeepsInv(s, events[0]);
      StepMakesNoDouble(s, events[0]);
      RunKeeps(Next(s, events[0]), events[1..]);
    }
  }

  lemma {:induction false} RunKeepsClear(s: State, events: seq<Event>)
    requires Inv(s) && Clear(s) && NeverHarmful(s, events)
    ensures Inv(Run(s, events)) && Clear(Run(s, events)) && NoNewOverlap(s.visits, Run(s, events).visits)
    decreases |events|
  {
    if events != [] {
      StepKeepsInv(s, events[0]);
      StepKeepsClear(s, events[0]);
      StepMakesNoOverlap(s, events[0]);
      RunKeepsClear(Next(s, events[0]), events[1..]);
    }
  }

  lemma {:induction false} RunAppend(s: State, first: seq<Event>, later: seq<Event>)
    ensures Run(s, first + later) == Run(Run(s, first), later)
    decreases |first|
  {
    if first == [] {
      assert first + later == later;
    } else {
      assert (first + later)[1..] == first[1..] + later;
      RunAppend(Next(s, first[0]), first[1..], later);
    }
  }

  lemma {:induction false} NeverHarmfulSplit(s: State, first: seq<Event>, later: seq<Event>)
    requires NeverHarmful(s, first + later)
    ensures NeverHarmful(s, first) && NeverHarmful(Run(s, first), later)
    decreases |first|
  {
    if first == [] {
      assert first + later == later;
    } else {
      assert (first + later)[1..] == first[1..] + later && (first + later)[0] == first[0];
      NeverHarmfulSplit(Next(s, first[0]), first[1..], later);
    }
  }

  /**
   For every interleaving and every start table: a double booking of a lead seen after `later` was already there after
   `first`, and so was an overlap, unless a harmful legacy booking was committed. So a pair that stops overlapping
   never overlaps again.
   */
  lemma {:induction false} ConflictsOnlyDisappear(s: State, first: seq<Event>, later: seq<Event>)
    requires Quiet(s)
    ensures NoNewDouble(Run(s, first).visits, Run(s, first + later).visits)
    ensures NoNewDouble(s.visits, Run(s, first + later).visits)
    ensures NeverHarmful(s, first + later) ==>
              && NoNewOverlap(Run(s, first).visits, Run(s, first + later).visits)
              && NoNewOverlap(s.visits, Run(s, first + later).visits)
  {
    RunKeeps(s, first);
    RunAppend(s, first, later);
    RunKeeps(Run(s, first), later);
    if NeverHarmful(s, first + later) {
      NeverHarmfulSplit(s, first, later);
      RunKeepsClear(s, first);
      RunKeepsClear(Run(s, first), later);
    }
  }

  ghost predicate Disjoint(visits: Table) {
    forall a, b :: !Overlapping(visits, a, b)
  }

  lemma {:induction false} DisjointStaysDisjoint(s: State, events: seq<Event>)
    requires Quiet(s) && Disjoint(s.visits) && NeverHarmful(s, events)
    ensures Disjoint(Run(s, events).visits)
  {
    RunKeepsClear(s, events);
  }

  ghost predicate OverlapsNothing(visits: Table, id: VisitId) {
    forall b :: !Overlapping(visits, id, b)
  }

  /**
   The probe refuses nobody in vain: it lets the booking go on exactly when committing it now would overlap
   nothing.
   */
  lemma {:induction false} ProbeIsExact(s: State, t: TxId)
    requires Inv(s) && t in s.txs && s.txs[t].phase.Locked?
    ensures var tx := s.txs[t];
            t in Next(s, Probe(t)).txs <==> OverlapsNothing(s.visits[tx.target := tx.plan], tx.target)
  {
    var tx := s.txs[t];
    var after := s.visits[tx.target := tx.plan];
    assert TxInv(s.visits, s.hash, tx);
    if id :| id in s.visits && Clashes(s.visits, tx.target, tx.plan, id) {
      assert Overlapping(after, tx.target, id);
    }
    if b: VisitId :| Overlapping(after, tx.target, b) {
      assert Clashes(s.visits, tx.target, tx.plan, b);
    }
  }

  // ---- the legacy path -----------------------------------------------------------------------

  lemma {:induction false} RunSplit(s: State, first: Event, others: seq<Event>)
    ensures Run(s, [first] + others) == Run(Next(s, first), others)
  {
    assert ([first] + others)[1..] == others;
  }

  /** No legacy booking is committed on the way. */
  predicate NoLegacy(s: State, events: seq<Event>)
    decreases |events|
  {
    events != [] ==> !CommitsLegacy(s, events[0]) && NoLegacy(Next(s, events[0]), events[1..])
  }

  /** Whatever happens next, short of another legacy commit, no two bookings of a manager overlap. */
  ghost predicate StaysDisjoint(s: State) {
    forall events :: NoLegacy(s, events) ==> Disjoint(Run(s, events).visits)
  }

  ghost predicate Sound(s: State) {
    Disjoint(s.visits) && Clear(s)
  }

  lemma {:induction false} NoLegacyIsHarmless(s: State, events: seq<Event>)
    requires NoLegacy(s, events)
    ensures NeverHarmful(s, events)
    decreases |events|
  {
    if events != [] {
      NoLegacyIsHarmless(Next(s, events[0]), events[1..]);
    }
  }

  lemma {:induction false} ClashOverlaps(visits: Table, id: VisitId, w: Visit)
    requires w.status.Scheduled? && Busy(visits, id, w)
    ensures !Disjoint(visits[id := w])
  {
    var other :| other in visits && Clashes(visits, id, w, other);
    assert Overlapping(visits[id := w], id, other);
  }

  lemma {:induction false} WriteAndCommit(s: State, t: TxId)
    requires t in s.txs && s.txs[t].phase.Ready?
    ensures var events := [Write(t)] + [Commit(t)];
            NoLegacy(s, events) && Run(s, events).visits == s.visits[s.txs[t].target := s.txs[t].plan]
  {
    var written := Next(s, Write(t));
    assert written.txs[t] == s.txs[t].(writes := map[s.txs[t].target := s.txs[t].plan]);
    RunSplit(s, Write(t), [Commit(t)]);
    RunSplit(written, Commit(t), []);
    assert [Commit(t)] + [] == [Commit(t)];
    assert ([Write(t)] + [Commit(t)])[1..] == [Commit(t)] && [Commit(t)][1..] == [];
    assert NoLegacy(written, [Commit(t)]);
  }

  /** A booking that is in flight and not clear breaks the calendar when it writes and commits. */
  lemma {:induction false} UnclearBreaks(s: State, t: TxId)
    requires t in s.txs && s.txs[t].phase.Ready? && !ClearWrite(s.visits, s.txs[t].target, s.txs[t].plan)
    ensures var events := [Write(t)] + [Commit(t)];
            NoLegacy(s, events) && !Disjoint(Run(s, events).visits)
  {
    WriteAndCommit(s, t);
    ClashOverlaps(s.visits, s.txs[t].target, s.txs[t].plan);
  }

  /** Every run without legacy commits stays disjoint exactly when the table is and no booking in flight clashes. */
  lemma {:induction false} StaysDisjointIff(s: State)
    requires Inv(s)
    ensures StaysDisjoint(s) <==> Sound(s)
  {
    if Sound(s) {
      forall events | NoLegacy(s, events) ensures Disjoint(Run(s, events).visits) {
        NoLegacyIsHarmless(s, events);
        RunKeepsClear(s, events);
      }
    } else if !Disjoint(s.visits) {
      assert NoLegacy(s, []) && Run(s, []) == s;
    } else {
      var t :| t in s.txs && s.txs[t].phase.Ready? && !ClearWrite(s.visits, s.txs[t].target, s.txs[t].plan);
      UnclearBreaks(s, t);
    }
  }

  lemma {:induction false} MeetingIsUnclear(visits: Table, id: VisitId, row: Visit, target: VisitId, plan: Visit)
    requires id != target && row.status.Scheduled? && plan.status.Scheduled? && Meets(plan, row)
    ensures Disjoint(visits[id := row]) ==> !ClearWrite(visits[id := row], target, plan)
  {
    var after := visits[id := row];
    assert Clashes(after, target, plan, id);
    if KeepsSlot(after, target, plan) {
      assert Overlapping(after, target, id);
    }
  }

  lemma {:induction false} LegacyCommit(s: State, t: TxId)
    requires Inv(s) && t in s.txs && s.txs[t].phase.Unprobed?
    ensures Next(s, Commit(t)).visits == s.visits[s.txs[t].target := s.txs[t].plan]
    ensures s.txs[t].plan.status.Scheduled? && s.txs[t].plan.manager.Some?
    ensures forall u :: u in s.txs && s.txs[u].phase.Ready? ==>
              u in Next(s, Commit(t)).txs && Next(s, Commit(t)).txs[u] == s.txs[u] && s.txs[u].target != s.txs[t].target
  {
    assert TxInv(s.visits, s.hash, s.txs[t]);
    forall u | u in s.txs && s.txs[u].phase.Ready? ensures s.txs[u].target != s.txs[t].target {
      assert Apart(s.txs[t], s.txs[u]);
    }
  }

  /** A harmful legacy commit leaves an overlap, or a booking in flight that will make one. */
  lemma {:induction false} HarmfulBreaks(s: State, t: TxId)
    requires Inv(s) && t in s.txs && Harmful(s, Commit(t))
    ensures !Sound(Next(s, Commit(t)))
  {
    var id, row := s.txs[t].target, s.txs[t].plan;
    LegacyCommit(s, t);
    if !ClearWrite(s.visits, id, row) {
      ClashOverlaps(s.visits, id, row);
    } else {
      var u :| u in s.txs && s.txs[u].phase.Ready? && s.txs[u].plan.status.Scheduled? && Meets(s.txs[u].plan, row);
      MeetingIsUnclear(s.visits, id, row, s.txs[u].target, s.txs[u].plan);
    }
  }

  /**
   Committing a legacy booking leaves a calendar that stays disjoint exactly when the probe it skips would pass at that
   moment and no probed booking still in flight clashes with it.
   */
  lemma {:induction false} LegacyKeepsDisjointIff(s: State, t: TxId)
    requires Inv(s) && Sound(s) && t in s.txs && s.txs[t].phase.Unprobed?
    ensures StaysDisjoint(Next(s, Commit(t))) <==>
            && !Busy(s.visits, s.txs[t].target, s.txs[t].plan)
            && forall u :: u in s.txs && s.txs[u].phase.Ready? && s.txs[u].plan.status.Scheduled? ==>
                 !Meets(s.txs[u].plan, s.txs[t].plan)
  {
    var id, row := s.txs[t].target, s.txs[t].plan;
    StepKeepsInv(s, Commit(t));
    StaysDisjointIff(Next(s, Commit(t)));
    assert TxInv(s.visits, s.hash, s.txs[t]);
    if KeepsSlot(s.visits, id, row) && Busy(s.visits, id, row) {
      var other :| other in s.visits && Clashes(s.visits, id, row, other);
      assert Overlapping(s.visits, id, other);
    }
    if Harmless(s, t) {
      StepKeepsClear(s, Commit(t));
      StepMakesNoOverlap(s, Commit(t));
    } else {
      HarmfulBreaks(s, t);
    }
  }

  /** Every state of the run stays disjoint until the next legacy commit. */
  ghost predicate AlwaysStaysDisjoint(s: State, events: seq<Event>)
    decreases |events|
  {
    StaysDisjoint(s) && (events != [] ==> AlwaysStaysDisjoint(Next(s, events[0]), events[1..]))
  }

  /** With any number of legacy bookings, a run stays safe throughout exactly when it commits no harmful one. */
  lemma {:induction false} RunStaysDisjointIff(s: State, events: seq<Event>)
    requires Inv(s) && Sound(s)
    ensures AlwaysStaysDisjoint(s, events) <==> NeverHarmful(s, events)
    decreases |events|
  {
    StaysDisjointIff(s);
    if events != [] {
      var next := Next(s, events[0]);
      StepKeepsInv(s, events[0]);
      StaysDisjointIff(next);
      if Harmful(s, events[0]) {
        HarmfulBreaks(s, events[0].t);
      } else {
        StepKeepsClear(s, events[0]);
        StepMakesNoOverlap(s, events[0]);
        RunStaysDisjointIff(next, events[1..]);
      }
    }
  }

  const EMPTY := State(map[], map[], map[])

  /** Undisturbed, a legacy booking takes an hour from the given start, in the lead's scheduled visit or a new one. */
  lemma {:induction false} LegacyAlone(visits: Table, id: VisitId, lead: LeadId, manager: Manager, startsAt: int)
    ensures var quiet := State(visits, map[], map[]);
            var after := Next(Next(quiet, WriteLegacy(0, id, lead, manager, startsAt)), Commit(0));
            var reused := id in visits && visits[id].lead == lead && visits[id].kind == Showroom
                          && visits[id].status == Scheduled;
            after.visits ==
            if reused || (id !in visits && !HasVisit(visits, lead, Showroom))
            then visits[id := Visit(lead, Showroom, Some(manager), startsAt, startsAt + 3600, Scheduled,
                                    if reused then visits[id].version + 1 else 1)]
            else visits
  {
    AlreadyActiveIs(visits, lead, Showroom);
    var begun := Next(State(visits, map[], map[]), WriteLegacy(0, id, lead, manager, startsAt));
    assert 0 !in begun.txs ==> begun == State(visits, map[], map[]);
    assert 0 in begun.txs ==> begun.visits == visits && begun.txs[0].writes.Keys == {id};
  }

  /** Two legacy bookings of one manager at one time, for two leads, both succeed. */
  lemma {:induction false} LegacyDoubleBooks()
    ensures var first := Next(Next(EMPTY, WriteLegacy(1, 1, 10, 7, 0)), Commit(1));
            var written := Next(first, WriteLegacy(2, 2, 20, 7, 0));
            && 2 in written.txs && Busy(written.visits, 2, written.txs[2].plan)
            && Disjoint(first.visits) && !Disjoint(Next(written, Commit(2)).visits)
  {
    var row := Visit(10, Showroom, Some(7), 0, 60 * MINUTE, Scheduled, 1);
    var first := Next(Next(EMPTY, WriteLegacy(1, 1, 10, 7, 0)), Commit(1));
    assert first == State(map[1 := row], map[], map[]);
    var written := Next(first, WriteLegacy(2, 2, 20, 7, 0));
    assert 2 in written.txs && written.visits == first.visits;
    assert Clashes(written.visits, 2, written.txs[2].plan, 1);
    assert Overlapping(Next(written, Commit(2)).visits, 1, 2);
  }

  const PLAN := Visit(10, Showroom, Some(7), 0, 60 * MINUTE, Scheduled, 1)

  /** A create for lead 10 and manager 7, probed and written. */
  const PROBED := State(map[], map[1 := Tx(Ready, 1, PLAN, map[1 := PLAN], {10}, {}, {7})], map[])

  lemma {:induction false} ProbedIsReachable()
    ensures var begun := Next(EMPTY, BeginCreate(1, 1, CreateRequest(10, Showroom, 7, 0, 60)));
            PROBED == Next(Next(Next(begun, LockManager(1)), Probe(1)), Write(1))
  {
    var begun := Next(EMPTY, BeginCreate(1, 1, CreateRequest(10, Showroom, 7, 0, 60)));
    assert begun.txs == map[1 := Tx(Opened, 1, PLAN, map[], {10}, {}, {})];
    assert Next(begun, LockManager(1)).txs == map[1 := Tx(Locked, 1, PLAN, map[], {10}, {}, {7})];
  }

  /** A legacy booking commits on a free slot, and the create that was probed before it then makes them overlap. */
  lemma {:induction false} LegacyDefeatsProbe()
    ensures var written := Next(PROBED, WriteLegacy(2, 2, 20, 7, 0));
            var legacy := Next(written, Commit(2));
            && 2 in written.txs && !Busy(written.visits, 2, written.txs[2].plan)
            && Disjoint(legacy.visits) && !Disjoint(Next(legacy, Commit(1)).visits)
  {
    var row := Visit(20, Showroom, Some(7), 0, 60 * MINUTE, Scheduled, 1);
    var written := Next(PROBED, WriteLegacy(2, 2, 20, 7, 0));
    assert written == Put(PROBED, 2, Tx(Unprobed, 2, row, map[2 := row], {20}, {}, {}));
    var legacy := Next(written, Commit(2));
    assert legacy.visits == map[2 := row] && 1 in legacy.txs && legacy.txs[1] == PROBED.txs[1];
    assert Next(legacy, Commit(1)).visits == map[2 := row, 1 := PLAN];
    assert Overlapping(Next(legacy, Commit(1)).visits, 1, 2);
  }
}
