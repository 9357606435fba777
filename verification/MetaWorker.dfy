/**
 The Meta worker and the webhook as they run (internal/metaleads/processor.go, integration.go): each is proved to be
 a sequence of protocol steps, so what `MetaInbox` proves of all interleavings is about them.
 */
module MetaWorker {
  import opened Prelude
  import opened Outbox
  import opened MetaInbox

  // ---- which errors are retried --------------------------------------------------------------

  /** A Graph error; `phrase` says that its message names a missing or temporarily unavailable object. */
  datatype Problem =
    | Deadline
    | Network
    | Graph(oauth: bool, transient: bool, http: int, code: int, phrase: bool)
    | Other

  predicate Retryable(p: Problem) {
    match p
    case Graph(oauth, transient, http, code, phrase) =>
      || oauth || transient || http in {408, 409, 425, 429} || http >= 500
      || code in {1, 2, 4, 17, 32, 341, 368}
      || (code == 100 && phrase)
    case _ => true
  }

  /** The only errors that are not retried: answers of the Graph with none of the codes that pass. */
  predicate Permanent(p: Problem) {
    && p.Graph? && !p.oauth && !p.transient && p.http < 500
    && p.http != 408 && p.http != 409 && p.http != 425 && p.http != 429
    && p.code != 1 && p.code != 2 && p.code != 4 && p.code != 17 && p.code != 32 && p.code != 341 && p.code != 368
    && !(p.code == 100 && p.phrase)
  }

  /** How processing a claimed event goes: `commits` is whether the database takes the transaction. */
  datatype Outcome =
    | Unfetched(problem: Problem)
    | TooOld
    | Mapped(lead: MetaInbox.Mapped, office: Office, commits: bool)

  /** A webhook batch: the event id, and whether its page is configured. */
  datatype Notice = Notice(id: EventId, configured: bool)

  /** The rows that a webhook has added for the worker to take up. */
  function NewPending(before: map<EventId, Row>, after: map<EventId, Row>): set<EventId> {
    set id | id in after && id !in before && after[id].status.Pending?
  }

  function NewRow(n: Notice, now: int): Row {
    Row(if n.configured then Pending else Ignored, 0, now, None, None, None)
  }

  lemma {:induction false} NewPendingIs(before: map<EventId, Row>, inbox: map<EventId, Row>, id: EventId, row: Row)
    requires id !in inbox && id !in before
    ensures NewPending(before, inbox[id := row])
         == NewPending(before, inbox) + if row.status.Pending? then {id} else {}
    ensures id !in NewPending(before, inbox)
  {
  }

  lemma {:induction false} NewPendingMore(before: map<EventId, Row>, inbox: map<EventId, Row>, n: Notice, now: int)
    requires before.Keys <= inbox.Keys
    ensures n.id !in inbox ==>
              |NewPending(before, inbox[n.id := NewRow(n, now)])|
              == |NewPending(before, inbox)| + if n.configured then 1 else 0
  {
    if n.id !in inbox {
      NewPendingIs(before, inbox, n.id, NewRow(n, now));
    }
  }

  function Receives(notices: seq<Notice>, now: int): seq<Event> {
    if notices == [] then []
    else Receives(notices[..|notices| - 1], now)
         + [Receive(notices[|notices| - 1].id, notices[|notices| - 1].configured, now)]
  }

  lemma {:induction false} RunAppend(s: State, a: seq<Event>, b: seq<Event>)
    ensures Run(s, a + b) == Run(Run(s, a), b)
    decreases |a|
  {
    if a == [] {
      assert a + b == b;
    } else {
      assert (a + b)[1..] == a[1..] + b;
      RunAppend(Next(s, a[0]), a[1..], b);
    }
  }

  lemma {:induction false} RunOneMore(s: State, a: seq<Event>, e: Event)
    ensures Run(s, a + [e]) == Next(Run(s, a), e)
  {
    RunAppend(s, a, [e]);
    assert [e][1..] == [];
  }

  /** What the steps of a worker that is not disturbed do to the tables. */
  lemma {:induction false} CommitAlone(s: State, token: Token, m: MetaInbox.Mapped, office: Office)
    requires token in s.claims && s.txs == map[]
    ensures var i := Find(s.leads, m.externalId);
            var inserted := i == |s.leads|;
            var after := Next(Next(s, Upsert(token, m, office)), Commit(token));
            && after.leads == (if inserted then s.leads + [Lead(m.externalId, m.contact, m.createdAt, office)]
                               else s.leads[i := MergeLead(s.leads[i], m)])
            && after.notes == (if inserted then Enqueued(s.notes, i, DestinationsOf(s, office)) else s.notes)
            && after.inbox == MarkEvent(s, token, i)
            && after.claims == s.claims && after.txs == map[] && after.upserts == s.upserts + [m]
            && after.destinations == s.destinations
  {
    var tried := Next(s, Upsert(token, m, office));
    assert tried == s.(txs := map[token := Tx(m, office, Find(s.leads, m.externalId) == |s.leads|)]);
    assert tried.txs - {token} == map[];
    assert MarkEvent(tried, token, Find(s.leads, m.externalId)) == MarkEvent(s, token, Find(s.leads, m.externalId));
  }

  lemma {:induction false} AbortAlone(s: State, token: Token, m: MetaInbox.Mapped, office: Office)
    requires token in s.claims && s.txs == map[]
    ensures Next(Next(s, Upsert(token, m, office)), Abort(token)) == s
  {
    assert Next(s, Upsert(token, m, office)).txs - {token} == map[];
  }

  class Worker {
    var inbox: map<EventId, Row>
    var received: seq<EventId> // in the order of received_at
    var leads: seq<Lead>
    var notes: seq<Note>
    var drawn: Token
    const destinations: map<Office, seq<Destination>>
    ghost var claims: map<Token, Claim>
    ghost var upserts: seq<MetaInbox.Mapped>

    ghost function Tables(): State
      reads this
    {
      State(inbox, leads, notes, claims, map[], upserts, destinations)
    }

    ghost predicate Valid()
      reads this
    {
      && (forall id :: id in inbox <==> id in received)
      && (forall token :: token in claims ==> token < drawn)
    }

    constructor (destinations: map<Office, seq<Destination>>)
      ensures Valid() && Tables() == Start(destinations) && Inv(Tables())
    {
      this.destinations := destinations;
      inbox, received, leads, notes, drawn, claims, upserts := map[], [], [], [], 0, map[], [];
    }

    /** storeWebhook: one insert per event of the batch; a repeated delivery inserts nothing. */
    method StoreWebhook(notices: seq<Notice>, now: int) returns (inserted: nat, pending: nat)
      requires Valid()
      modifies `inbox, `received
      ensures Valid() && Tables() == Run(old(Tables()), Receives(notices, now))
      ensures inserted == |inbox| - |old(inbox)| && pending == |NewPending(old(inbox), inbox)|
    {
      inserted, pending := 0, 0;
      for i := 0 to |notices|
        invariant Valid() && Tables() == Run(old(Tables()), Receives(notices[..i], now))
        invariant inserted == |inbox| - |old(inbox)| && pending == |NewPending(old(inbox), inbox)|
        invariant old(inbox).Keys <= inbox.Keys
      {
        var n := notices[i];
        assert notices[..i + 1][..i] == notices[..i];
        RunOneMore(old(Tables()), Receives(notices[..i], now), Receive(n.id, n.configured, now));
        NewPendingMore(old(inbox), inbox, n, now);
        var isNew := StoreNotice(n, now);
        if isNew {
          inserted := inserted + 1;
          if n.configured {
            pending := pending + 1;
          }
        }
      }
      assert notices[..|notices|] == notices;
    }

    /** The insert of one event, on conflict do nothing. */
    method StoreNotice(n: Notice, now: int) returns (isNew: bool)
      requires Valid()
      modifies `inbox, `received
      ensures Valid() && Tables() == Next(old(Tables()), Receive(n.id, n.configured, now))
      ensures isNew == (n.id !in old(inbox))
      ensures inbox == if isNew then old(inbox)[n.id := NewRow(n, now)] else old(inbox)
    {
      isNew := n.id !in inbox;
      if isNew {
        inbox := inbox[n.id := NewRow(n, now)];
        received := received + [n.id];
      }
    }

    /** claimEvent: the event received first of those that may be claimed. */
    method ClaimNext(now: int, includeRetries: bool) returns (token: Token, claim: Option<Claim>, ghost at: nat)
      requires Valid()
      modifies `inbox, `drawn, `claims
      ensures Valid() && at <= |received|
      ensures forall k :: 0 <= k < at ==> !Claimable(old(inbox)[received[k]], now, includeRetries)
      ensures claim.None? ==> at == |received| && Tables() == old(Tables())
      ensures claim.Some? ==>
                && at < |received| && Claimable(old(inbox)[received[at]], now, includeRetries)
                && Tables() == Next(old(Tables()), ClaimEvent(token, received[at], now, includeRetries))
                && Holds(Tables(), token) && claims[token] == claim.value
    {
      token, claim := drawn, None;
      var i := 0;
      while i < |received| && !Claimable(inbox[received[i]], now, includeRetries)
        invariant i <= |received|
        invariant forall k :: 0 <= k < i ==> !Claimable(inbox[received[k]], now, includeRetries)
      {
        i := i + 1;
      }
      at := i;
      if i < |received| {
        var id := received[i];
        var row := inbox[id];
        drawn := drawn + 1;
        claim := Some(Claim(id, row.attempts));
        claims := claims[token := claim.value];
        inbox := inbox[id := row.(status := Processing, claimedAt := Some(now), token := Some(token))];
      }
    }

    /** The insert of processEvent with its `on conflict do update`, column by column. */
    method UpsertLead(m: MetaInbox.Mapped, office: Office) returns (i: nat, inserted: bool)
      modifies `leads
      ensures i == Find(old(leads), m.externalId) && inserted == (i == |old(leads)|)
      ensures leads == if inserted then old(leads) + [Lead(m.externalId, m.contact, m.createdAt, office)]
                       else old(leads)[i := MergeLead(old(leads)[i], m)]
    {
      i := Find(leads, m.externalId);
      inserted := i == |leads|;
      if inserted {
        leads := leads + [Lead(m.externalId, m.contact, m.createdAt, office)];
        return;
      }
      var stored := leads[i];
      var contact: Contact := stored.contact;
      for f := 0 to FIELDS
        invariant forall k :: 0 <= k < FIELDS ==>
                    contact[k] == if k < f then MergeField(stored.contact[k], m.contact[k]) else stored.contact[k]
      {
        if Empty(stored.contact[f]) {
          contact := contact[f := m.contact[f]];
        }
      }
      assert contact == MergeContact(stored.contact, m.contact);
      var created := stored.createdAt;
      if created.None? {
        created := m.createdAt;
      }
      leads := leads[i := stored.(contact := contact, createdAt := created)];
    }

    /** The update of the claimed event, which finds nothing when the token was superseded. */
    method MarkRow(token: Token, id: EventId, next: Row)
      modifies `inbox
      ensures inbox == if id in old(inbox) && old(inbox)[id].token == Some(token) then old(inbox)[id := next]
                       else old(inbox)
    {
      if id in inbox && inbox[id].token == Some(token) {
        inbox := inbox[id := next];
      }
    }

    /** failEvent. */
    method FailEvent(token: Token, claim: Claim, retryable: bool, now: int)
      requires Holds(Tables(), token) && claims[token] == claim
      modifies `inbox
      ensures Tables() == Next(old(Tables()), Fail(token, retryable, now))
    {
      var attempts := claim.attempts + 1;
      var status := Retry;
      if attempts >= MAX_ATTEMPTS || !retryable {
        status := DeadLetter;
      }
      MarkRow(token, claim.event, Marked(inbox[claim.event], status)
                                    .(attempts := attempts, nextAttemptAt := now + RetryDelay(attempts) * 1_000_000));
    }

    /** The end of processEvent: the lead, its notifications when it is new, and the event, in one transaction. */
    method StoreLead(token: Token, claim: Claim, m: MetaInbox.Mapped, office: Office)
      requires Holds(Tables(), token) && claims[token] == claim
      modifies `inbox, `leads, `notes, `upserts
      ensures Tables() == Next(Next(old(Tables()), Upsert(token, m, office)), Commit(token))
    {
      CommitAlone(Tables(), token, m, office);
      var i, inserted := UpsertLead(m, office);
      if inserted {
        notes := Enqueue(notes, i, if office in destinations then destinations[office] else []);
      }
      var done := Marked(inbox[claim.event], Processed);
      MarkRow(token, claim.event, done.(attempts := claim.attempts + 1, lead := Some(i)));
      upserts := upserts + [m];
    }

    /** processEvent and, when it returns an error, failEvent. */
    method Process(token: Token, claim: Claim, outcome: Outcome, now: int)
      requires Holds(Tables(), token) && claims[token] == claim
      modifies `inbox, `leads, `notes, `upserts
      ensures outcome.Unfetched? ==>
                && claim.event in inbox && inbox == old(inbox)[claim.event := inbox[claim.event]]
                && leads == old(leads) && notes == old(notes)
                && inbox[claim.event].attempts == claim.attempts + 1
                && inbox[claim.event].status
                   == if Permanent(outcome.problem) || claim.attempts + 1 >= 10 then DeadLetter else Retry
      ensures Tables() == match outcome
                          case Unfetched(problem) => Next(old(Tables()), Fail(token, Retryable(problem), now))
                          case TooOld => Next(old(Tables()), IgnoreOld(token))
                          case Mapped(m, office, commits) =>
                            var tried := Next(old(Tables()), Upsert(token, m, office));
                            if commits then Next(tried, Commit(token))
                            else Next(Next(tried, Abort(token)), Fail(token, true, now))
    {
      match outcome {
        case Unfetched(problem) => FailEvent(token, claim, Retryable(problem), now);
        case TooOld => MarkRow(token, claim.event, Marked(inbox[claim.event], Ignored));
        case Mapped(m, office, commits) =>
          if commits {
            StoreLead(token, claim, m, office);
          } else {
            AbortAlone(Tables(), token, m, office);
            FailEvent(token, claim, true, now);
          }
      }
    }
  }
}
