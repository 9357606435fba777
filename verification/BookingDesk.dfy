/**
 The booking handlers as they run when nothing else does (internal/crmapi/appointments.go): guards, the manager's
 lock and the probe, then the write. Each is proved to be exactly its own sequence of protocol steps, so what
 `Booking` proves of all interleavings is about these handlers.
 */
module BookingDesk {
  import opened Prelude
  import opened Booking

  datatype Refused = Invalid | ActiveExists | ManagerBusy | NotFound | Update(why: UpdateError)

  /** A quiet database with this table. */
  function Alone(visits: Table): State {
    State(visits, map[], map[])
  }

  function CreateTrace(s: State, id: VisitId, req: CreateRequest): State {
    Next(Next(Next(Next(Next(s, BeginCreate(0, id, req)), LockManager(0)), Probe(0)), Write(0)), Commit(0))
  }

  function UpdateTrace(s: State, id: VisitId, version: int, req: UpdateRequest): State {
    Next(Next(Next(Next(Next(s, BeginUpdate(0, id, version, req)), LockManager(0)), Probe(0)), Write(0)), Commit(0))
  }

  /** The rows of a lead that a cancellation of these kinds takes off the calendar. */
  predicate Cancels(v: Visit, lead: LeadId, kinds: set<Kind>) {
    v.lead == lead && v.status.Scheduled? && v.kind in kinds
  }

  function CancelledAt(v: Visit): Visit {
    v.(status := Canceled, version := v.version + 1)
  }

  function PlanOf(req: CreateRequest): Visit {
    Visit(req.lead, req.kind, Some(req.manager), req.startsAt, req.startsAt + req.minutes * MINUTE, Scheduled, 1)
  }

  /** The state of an undisturbed create up to its probe. */
  lemma {:induction false} CreateProbed(visits: Table, id: VisitId, req: CreateRequest)
    requires id !in visits && ValidCreate(req) && !AlreadyActive(visits, req.lead, req.kind)
    ensures var key := KeyOf(map[], req.manager);
            var probed := Next(Next(Next(Alone(visits), BeginCreate(0, id, req)), LockManager(0)), Probe(0));
            probed == if Busy(visits, id, PlanOf(req)) then Alone(visits)
                      else Alone(visits).(txs := map[0 := Tx(Ready, id, PlanOf(req), map[], {req.lead}, {}, {key})])
  {
    var begun := Next(Alone(visits), BeginCreate(0, id, req));
    assert begun == Alone(visits).(txs := map[0 := Tx(Opened, id, PlanOf(req), map[], {req.lead}, {}, {})]);
    var locked := Next(begun, LockManager(0));
    assert locked.txs == map[0 := Tx(Locked, id, PlanOf(req), map[], {req.lead}, {}, {KeyOf(map[], req.manager)})];
    assert locked.txs - {0} == map[];
  }

  /** What the protocol's steps do to the table when no other transaction is open. */
  lemma {:induction false} CreateAlone(visits: Table, id: VisitId, req: CreateRequest)
    requires id !in visits
    ensures CreateTrace(Alone(visits), id, req).visits
         == if !ValidCreate(req) || AlreadyActive(visits, req.lead, req.kind) || Busy(visits, id, PlanOf(req))
            then visits
            else visits[id := PlanOf(req)]
  {
    if ValidCreate(req) && !AlreadyActive(visits, req.lead, req.kind) {
      CreateProbed(visits, id, req);
    }
  }

  lemma {:induction false} UpdateAlone(visits: Table, id: VisitId, version: int, req: UpdateRequest)
    ensures var planned := if id in visits then PlanUpdateSpec(visits[id], version, req) else Err(VersionConflict);
            UpdateTrace(Alone(visits), id, version, req).visits
            == if !ValidUpdate(req) || planned.Err? || (planned.value.1 && Busy(visits, id, planned.value.0))
               then visits
               else visits[id := planned.value.0]
  {
  }

  /** A duration in quarters of an hour, and no status but a closing one. */
  predicate WellFormed(req: UpdateRequest) {
    && (req.minutes.Some? ==> 15 <= req.minutes.value <= 480 && req.minutes.value % 15 == 0)
    && (req.status.Some? ==> req.status.value in {Visited, NoShow, Canceled})
  }

  class Calendar {
    var visits: Table

    constructor ()
      ensures visits == map[]
    {
      visits := map[];
    }

    /** ensureManagerFree: no scheduled appointment of the manager meets the range. */
    method ManagerFree(except: VisitId, plan: Visit) returns (free: bool)
      ensures free == !Busy(visits, except, plan)
    {
      var left := visits.Keys;
      free := true;
      while left != {}
        invariant left <= visits.Keys
        invariant forall id :: id in visits && id !in left ==> !Clashes(visits, except, plan, id)
        decreases |left|
      {
        var id :| id in left;
        if Clashes(visits, except, plan, id) {
          return false;
        }
        left := left - {id};
      }
    }

    /** createAppointment: a refusal writes nothing, an acceptance adds the one row asked for. */
    method Create(id: VisitId, req: CreateRequest) returns (refused: Option<Refused>)
      requires id !in visits
      modifies this
      ensures visits == CreateTrace(Alone(old(visits)), id, req).visits
      ensures refused == Some(Invalid) <==> !(15 <= req.minutes <= 480 && req.minutes % 15 == 0)
      ensures refused == Some(ActiveExists) <==>
                15 <= req.minutes <= 480 && req.minutes % 15 == 0 && HasVisit(old(visits), req.lead, req.kind)
      ensures refused == Some(ManagerBusy) <==>
                && 15 <= req.minutes <= 480 && req.minutes % 15 == 0 && !HasVisit(old(visits), req.lead, req.kind)
                && Taken(old(visits), id, Some(req.manager), req.startsAt, req.startsAt + req.minutes * 60)
      ensures refused.Some? ==> visits == old(visits) && (refused.value.Invalid? || refused.value.ActiveExists?
                                                          || refused.value.ManagerBusy?)
      ensures refused.None? ==>
                visits == old(visits)[id := Visit(req.lead, req.kind, Some(req.manager), req.startsAt,
                                                  req.startsAt + req.minutes * 60, Scheduled, 1)]
    {
      CreateAlone(visits, id, req);
      BusyIs(visits, id, PlanOf(req));
      AlreadyActiveIs(visits, req.lead, req.kind);
      if !ValidCreate(req) {
        return Some(Invalid);
      }
      if VisitKind(req.kind) && AlreadyActive(visits, req.lead, req.kind) {
        return Some(ActiveExists);
      }
      var plan := PlanOf(req);
      var free := ManagerFree(id, plan);
      if !free {
        return Some(ManagerBusy);
      }
      visits := visits[id := plan];
      return None;
    }

    /** updateAppointment: the manager is checked only when the booking moves. */
    method Update(id: VisitId, version: int, req: UpdateRequest) returns (refused: Option<Refused>)
      modifies this
      ensures visits == UpdateTrace(Alone(old(visits)), id, version, req).visits
      ensures refused == Some(Invalid) <==> !WellFormed(req)
      ensures refused == Some(NotFound) <==> WellFormed(req) && id !in old(visits)
      ensures WellFormed(req) && id in old(visits) ==>
                && (refused == Some(Refused.Update(VersionConflict)) <==> old(visits)[id].version != version)
                && (refused == Some(Refused.Update(OfficeWorkStatus)) <==>
                      old(visits)[id].version == version && old(visits)[id].kind == OfficeWork && req.status.Some?)
                && (refused.None? || refused == Some(ManagerBusy) <==> Updatable(old(visits)[id], version, req))
      ensures refused.Some? ==> visits == old(visits)
      ensures refused == Some(ManagerBusy) ==>
                exists next :: Patched(old(visits)[id], req, next) && Moves(old(visits)[id], next)
                               && Taken(visits, id, next.manager, next.startsAt, next.endsAt)
      ensures refused.None? ==>
                && id in old(visits) && visits == old(visits)[id := visits[id]]
                && Patched(old(visits)[id], req, visits[id])
                && (Moves(old(visits)[id], visits[id]) ==>
                      !Taken(old(visits), id, visits[id].manager, visits[id].startsAt, visits[id].endsAt))
    {
      UpdateAlone(visits, id, version, req);
      if !ValidUpdate(req) {
        return Some(Invalid);
      }
      if id !in visits {
        return Some(NotFound);
      }
      UpdateIs(visits[id], version, req);
      var plan := PlanUpdate(visits[id], version, req);
      if plan.Err? {
        return Some(Refused.Update(plan.error));
      }
      var (next, probe) := plan.value;
      BusyIs(visits, id, next);
      if probe {
        var free := ManagerFree(id, next);
        if !free {
          return Some(ManagerBusy);
        }
      }
      visits := visits[id := next];
      return None;
    }

    /** cancelScheduledAppointmentsForLead. */
    method CancelForLead(lead: LeadId, kinds: set<Kind>) returns (cancelled: set<VisitId>)
      modifies this
      ensures cancelled == set id | id in old(visits) && old(visits)[id].lead == lead
                                    && old(visits)[id].status == Scheduled && old(visits)[id].kind in kinds
      ensures visits.Keys == old(visits).Keys
      ensures forall id :: id in visits ==>
                visits[id] == if id !in cancelled then old(visits)[id]
                              else old(visits)[id].(status := Canceled, version := old(visits)[id].version + 1)
    {
      cancelled := set id | id in visits && Cancels(visits[id], lead, kinds);
      var left := cancelled;
      while left != {}
        invariant left <= cancelled && visits.Keys == old(visits).Keys
        invariant forall id :: id in visits ==>
                    visits[id] == if id in cancelled - left then CancelledAt(old(visits)[id]) else old(visits)[id]
        decreases |left|
      {
        var id :| id in left;
        visits := visits[id := CancelledAt(visits[id])];
        left := left - {id};
      }
    }
  }

  /** The steps that cancel these rows one by one. */
  function CancelSteps(ids: seq<VisitId>, kinds: set<Kind>): seq<Event> {
    if ids == [] then [] else CancelSteps(ids[..|ids| - 1], kinds) + [CancelRow(0, ids[|ids| - 1], kinds)]
  }

  predicate Cancelling(s: State, visits: Table, lead: LeadId, ids: seq<VisitId>) {
    && s.visits == visits && s.txs.Keys == {0}
    && s.txs[0].phase.Cancelling? && s.txs[0].plan.lead == lead
    && s.txs[0].rows == (set id | id in ids) == s.txs[0].writes.Keys
    && forall id :: id in s.txs[0].writes ==> id in visits && s.txs[0].writes[id] == CancelledAt(visits[id])
  }

  /** Different scheduled rows of the lead, all of these kinds. */
  predicate Cancellable(visits: Table, lead: LeadId, ids: seq<VisitId>, kinds: set<Kind>) {
    && (forall i :: 0 <= i < |ids| ==> ids[i] in visits && Cancels(visits[ids[i]], lead, kinds))
    && (forall i, j :: 0 <= i < j < |ids| ==> ids[i] != ids[j])
  }

  lemma {:induction false} CancelOne(s: State, visits: Table, lead: LeadId, ids: seq<VisitId>, last: VisitId,
                                     kinds: set<Kind>)
    requires Cancelling(s, visits, lead, ids) && last !in ids && last in visits && Cancels(visits[last], lead, kinds)
    ensures Cancelling(Next(s, CancelRow(0, last, kinds)), visits, lead, ids + [last])
  {
    assert RowFree(s, last);
    var after := Next(s, CancelRow(0, last, kinds));
    assert after.txs[0].rows == s.txs[0].rows + {last};
  }

  lemma {:induction false} LastOne(visits: Table, lead: LeadId, ids: seq<VisitId>, kinds: set<Kind>)
    requires Cancellable(visits, lead, ids, kinds) && ids != []
    ensures var init, last := ids[..|ids| - 1], ids[|ids| - 1];
            && Cancellable(visits, lead, init, kinds) && ids == init + [last] && last !in init
            && last in visits && Cancels(visits[last], lead, kinds)
            && CancelSteps(ids, kinds) == CancelSteps(init, kinds) + [CancelRow(0, last, kinds)]
  {
  }

  lemma {:induction false} CancelRun(s: State, visits: Table, lead: LeadId, ids: seq<VisitId>, kinds: set<Kind>)
    requires Cancelling(s, visits, lead, []) && Cancellable(visits, lead, ids, kinds)
    ensures Cancelling(Run(s, CancelSteps(ids, kinds)), visits, lead, ids)
  {
    if ids != [] {
      var init, last := ids[..|ids| - 1], ids[|ids| - 1];
      LastOne(visits, lead, ids, kinds);
      CancelRun(s, visits, lead, init, kinds);
      CancelOne(Run(s, CancelSteps(init, kinds)), visits, lead, init, last, kinds);
      RunOneMore(s, CancelSteps(init, kinds), CancelRow(0, last, kinds));
    }
  }

  lemma {:induction false} RunOneMore(s: State, events: seq<Event>, e: Event)
    ensures Run(s, events + [e]) == Next(Run(s, events), e)
  {
    RunAppend(s, events, [e]);
  }

  /** A cancellation, whatever order its rows come in, is those steps and a commit: the table `CancelForLead` leaves. */
  lemma {:induction false} CancelAlone(visits: Table, lead: LeadId, ids: seq<VisitId>, kinds: set<Kind>)
    requires Cancellable(visits, lead, ids, kinds)
    ensures var begun := Next(Alone(visits), BeginCancel(0, lead));
            var after := Next(Run(begun, CancelSteps(ids, kinds)), Commit(0)).visits;
            && after.Keys == visits.Keys
            && forall id :: id in visits ==>
                 after[id] == if id !in ids then visits[id]
                              else visits[id].(status := Canceled, version := visits[id].version + 1)
  {
    CancelRun(Next(Alone(visits), BeginCancel(0, lead)), visits, lead, ids, kinds);
  }
}
