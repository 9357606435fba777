/**
 The Meta lead inbox (internal/metaleads/processor.go, integration.go, sync.go).

 Events arrive from webhooks and from reconciliation; workers claim them under a five-minute lease
 and turn them into leads. The transaction of processEvent is two steps here: the upsert, whose
 unique key other upserts of the same external id wait for, and the commit, which also enqueues the
 notifications and marks the event if the token still matches. A worker whose lease ran out still
 commits its upsert.
 */
module MetaInbox {
  import opened Prelude
  import opened Outbox

  type EventId = string
  type ExternalId = string
  type Token = nat

  const MAX_ATTEMPTS := 10
  const LEASE := 300_000_000

  datatype Status = Pending | Processing | Retry | Processed | Ignored | DeadLetter

  datatype Row = Row(status: Status, attempts: int, nextAttemptAt: int, claimedAt: Option<int>, token: Option<Token>,
                     lead: Option<LeadId>)

  /**
   name, phone, email, product_interest, project_stage_source, city_region, source_note, ad_id, ad_name,
   campaign_id, campaign_name, form_id, form_name, platform, is_organic: all follow one rule.
   */
  type Contact = c: seq<Option<string>> | |c| == FIELDS witness seq(FIELDS, _ => None)

  const FIELDS := 15

  datatype Mapped = Mapped(externalId: ExternalId, contact: Contact, createdAt: Option<int>)

  datatype Lead = Lead(externalId: ExternalId, contact: Contact, createdAt: Option<int>, office: Office)

  // ---- the upsert ----------------------------------------------------------------------------

  /** `is null or btrim(...) = ''`: btrim strips spaces only. */
  predicate Empty(field: Option<string>) {
    field.None? || forall i :: 0 <= i < |field.value| ==> field.value[i] == ' '
  }

  function MergeField(stored: Option<string>, incoming: Option<string>): Option<string> {
    if Empty(stored) then incoming else stored
  }

  function MergeContact(stored: Contact, incoming: Contact): Contact {
    seq(FIELDS, f requires 0 <= f < FIELDS => MergeField(stored[f], incoming[f]))
  }

  function MergeLead(stored: Lead, m: Mapped): Lead {
    stored.(contact := MergeContact(stored.contact, m.contact),
            createdAt := if stored.createdAt.Some? then stored.createdAt else m.createdAt)
  }

  /** Position of the lead with this external id, or the length of the table. */
  function Find(leads: seq<Lead>, id: ExternalId): (i: nat)
    ensures i <= |leads|
    ensures i < |leads| ==> leads[i].externalId == id
    ensures forall k :: 0 <= k < i ==> leads[k].externalId != id
  {
    if leads == [] then 0
    else if leads[0].externalId == id then 0
    else
      var i := Find(leads[1..], id);
      assert forall k :: 1 <= k <= i ==> leads[k] == leads[1..][k - 1];
      i + 1
  }

  // ---- the protocol --------------------------------------------------------------------------

  /** What a worker remembers of its claim. */
  datatype Claim = Claim(event: EventId, attempts: int)

  /** An upsert that ran but is not committed; `inserted` is what `xmax = 0` reported. */
  datatype Tx = Tx(mapped: Mapped, office: Office, inserted: bool)

  datatype State = State(
    inbox: map<EventId, Row>,
    leads: seq<Lead>,
    notes: seq<Note>,
    claims: map<Token, Claim>, // every token ever drawn
    txs: map<Token, Tx>,
    upserts: seq<Mapped>,      // committed upserts, oldest first
    destinations: map<Office, seq<Destination>>)

  datatype Event =
    | Receive(id: EventId, configured: bool, now: int)     // webhook, or reconciliation of a configured page
    | ClaimEvent(token: Token, id: EventId, now: int, includeRetries: bool)
    | IgnoreOld(token: Token)
    | Upsert(token: Token, mapped: Mapped, office: Office)
    | Commit(token: Token)
    | Abort(token: Token)
    | Fail(token: Token, retryable: bool, now: int)

  predicate Claimable(row: Row, now: int, includeRetries: bool) {
    && row.attempts < MAX_ATTEMPTS && row.nextAttemptAt <= now
    && (row.status.Pending? || (includeRetries && row.status.Retry?)
        || (row.status.Processing? && row.claimedAt.Some? && row.claimedAt.value < now - LEASE))
  }

  predicate Holds(s: State, token: Token) {
    && token in s.claims && s.claims[token].event in s.inbox
    && s.inbox[s.claims[token].event].token == Some(token)
  }

  predicate KeyLocked(s: State, id: ExternalId) {
    exists t :: t in s.txs && s.txs[t].mapped.externalId == id
  }

  function RetryDelay(attempt: int): int {
    if attempt == 1 then 15 else if attempt == 2 then 60 else if attempt == 3 then 300
    else if attempt == 4 then 900 else if attempt == 5 then 3600 else 21600
  }

  lemma {:induction false} RetriesSlowDown(attempt: int, later: int)
    requires 1 <= attempt <= later
    ensures 15 <= RetryDelay(attempt) <= RetryDelay(later) <= 6 * 3600
  {
  }

  function Marked(row: Row, status: Status): Row {
    row.(status := status, claimedAt := None, token := None)
  }

  /** failEvent: the attempt counts, and the tenth or a permanent error is a dead letter. */
  function Failed(row: Row, attempts: int, retryable: bool, now: int): Row {
    Marked(row, if attempts >= MAX_ATTEMPTS || !retryable then DeadLetter else Retry)
      .(attempts := attempts, nextAttemptAt := now + RetryDelay(attempts) * 1_000_000)
  }

  function DestinationsOf(s: State, office: Office): seq<Destination> {
    if office in s.destinations then s.destinations[office] else []
  }

  /** The update of the claimed event; it matches no row when the lease was taken over. */
  function MarkEvent(s: State, token: Token, lead: LeadId): map<EventId, Row> {
    if !Holds(s, token) then s.inbox
    else
      var c := s.claims[token];
      s.inbox[c.event := Marked(s.inbox[c.event], Processed).(attempts := c.attempts + 1, lead := Some(lead))]
  }

  function Committed(s: State, token: Token): State
    requires token in s.txs
  {
    var tx := s.txs[token];
    var i := Find(s.leads, tx.mapped.externalId);
    if !tx.inserted && i == |s.leads| then s
    else
      var leads := if tx.inserted
                   then s.leads + [Lead(tx.mapped.externalId, tx.mapped.contact, tx.mapped.createdAt, tx.office)]
                   else s.leads[i := MergeLead(s.leads[i], tx.mapped)];
      var lead := if tx.inserted then |s.leads| else i;
      s.(leads := leads, txs := s.txs - {token}, upserts := s.upserts + [tx.mapped],
         notes := if tx.inserted then Enqueued(s.notes, lead, DestinationsOf(s, tx.office)) else s.notes,
         inbox := MarkEvent(s, token, lead))
  }

  function Next(s: State, e: Event): State {
    match e
    case Receive(id, configured, now) =>
      if id in s.inbox then s
      else s.(inbox := s.inbox[id := Row(if configured then Pending else Ignored, 0, now, None, None, None)])
    case ClaimEvent(token, id, now, includeRetries) =>
      if token in s.claims || id !in s.inbox || !Claimable(s.inbox[id], now, includeRetries) then s
      else s.(inbox := s.inbox[id := s.inbox[id].(status := Processing, claimedAt := Some(now), token := Some(token))],
              claims := s.claims[token := Claim(id, s.inbox[id].attempts)])
    case IgnoreOld(token) =>
      if !Holds(s, token) then s
      else s.(inbox := s.inbox[s.claims[token].event := Marked(s.inbox[s.claims[token].event], Ignored)])
    case Upsert(token, mapped, office) =>
      if token !in s.claims || token in s.txs || KeyLocked(s, mapped.externalId) then s
      else s.(txs := s.txs[token := Tx(mapped, office, Find(s.leads, mapped.externalId) == |s.leads|)])
    case Commit(token) =>
      if token !in s.txs then s else Committed(s, token)
    case Abort(token) =>
      s.(txs := s.txs - {token})
    case Fail(token, retryable, now) =>
      if !Holds(s, token) then s
      else
        var c := s.claims[token];
        s.(inbox := s.inbox[c.event := Failed(s.inbox[c.event], c.attempts + 1, retryable, now)])
  }

  function Run(s: State, events: seq<Event>): State
    decreases |events|
  {
    if events == [] then s else Run(Next(s, events[0]), events[1..])
  }

  function Start(destinations: map<Office, seq<Destination>>): State {
    State(map[], [], [], map[], map[], [], destinations)
  }

  // ---- what a lead remembers -----------------------------------------------------------------

  /** The committed upserts of one external id, oldest first. */
  function UpsertsOf(upserts: seq<Mapped>, id: ExternalId): seq<Mapped> {
    if upserts == [] then []
    else
      var before := UpsertsOf(upserts[..|upserts| - 1], id);
      if upserts[|upserts| - 1].externalId == id then before + [upserts[|upserts| - 1]] else before
  }

  lemma {:induction false} UpsertsOfAppend(upserts: seq<Mapped>, m: Mapped, id: ExternalId)
    ensures UpsertsOf(upserts + [m], id) == UpsertsOf(upserts, id) + (if m.externalId == id then [m] else [])
  {
    assert (upserts + [m])[..|upserts|] == upserts;
  }

  /** The first non-blank value ever upserted; with none, the last value. */
  function FirstFilled(values: seq<Option<string>>): Option<string>
    requires values != []
  {
    if |values| == 1 || !Empty(values[0]) then values[0] else FirstFilled(values[1..])
  }

  lemma {:induction false} FirstFilledIs(values: seq<Option<string>>, k: nat)
    requires k < |values|
    requires forall i :: 0 <= i < k ==> Empty(values[i])
    requires !Empty(values[k]) || k == |values| - 1
    ensures FirstFilled(values) == values[k]
  {
    if k > 0 {
      assert Empty(values[0]);
      FirstFilledIs(values[1..], k - 1);
    }
  }

  lemma {:induction false} FirstFilledAppend(values: seq<Option<string>>, v: Option<string>)
    requires values != []
    ensures FirstFilled(values + [v]) == MergeField(FirstFilled(values), v)
  {
    if |values| > 1 && Empty(values[0]) {
      assert (values + [v])[1..] == values[1..] + [v];
      FirstFilledAppend(values[1..], v);
    } else {
      assert (values + [v])[1..] == [v] || |values| > 1;
    }
  }

  function FirstSome(values: seq<Option<int>>): Option<int> {
    if values == [] then None else if values[0].Some? then values[0] else FirstSome(values[1..])
  }

  lemma {:induction false} FirstSomeAppend(values: seq<Option<int>>, v: Option<int>)
    ensures FirstSome(values + [v]) == if FirstSome(values).Some? then FirstSome(values) else v
  {
    if values == [] {
      assert ([v])[1..] == [];
    } else {
      assert (values + [v])[1..] == values[1..] + [v];
      FirstSomeAppend(values[1..], v);
    }
  }

  // ---- the invariant -------------------------------------------------------------------------

  predicate Open(status: Status) {
    status.Pending? || status.Processing? || status.Retry?
  }

  predicate RowInv(s: State, id: EventId)
    requires id in s.inbox
  {
    var row := s.inbox[id];
    && (Open(row.status) ==> 0 <= row.attempts < MAX_ATTEMPTS)
    && (row.token.Some? ==>
          && row.status.Processing? && row.token.value in s.claims
          && s.claims[row.token.value] == Claim(id, row.attempts))
    && (row.status.Processed? ==> row.lead.Some? && row.lead.value < |s.leads|)
  }

  ghost predicate OneLeadEach(leads: seq<Lead>) {
    forall i, j :: 0 <= i < j < |leads| ==> leads[i].externalId != leads[j].externalId
  }

  predicate Verdict(leads: seq<Lead>, tx: Tx) {
    tx.inserted <==> Find(leads, tx.mapped.externalId) == |leads|
  }

  /** The unique index: one row per external id; while an upsert is open its verdict stays right. */
  ghost predicate KeysInv(s: State) {
    && OneLeadEach(s.leads)
    && (forall t :: t in s.txs ==> Verdict(s.leads, s.txs[t]))
    && (forall t, u :: t in s.txs && u in s.txs && t != u ==> s.txs[t].mapped.externalId != s.txs[u].mapped.externalId)
  }

  function Column(upserts: seq<Mapped>, f: nat): (values: seq<Option<string>>)
    requires f < FIELDS
    ensures |values| == |upserts|
  {
    seq(|upserts|, i requires 0 <= i < |upserts| => upserts[i].contact[f])
  }

  function CreatedColumn(upserts: seq<Mapped>): seq<Option<int>> {
    seq(|upserts|, i requires 0 <= i < |upserts| => upserts[i].createdAt)
  }

  /** Every contact field is the first non-blank value upserted for this lead, the creation time the first known one. */
  ghost predicate Remembers(lead: Lead, history: seq<Mapped>) {
    && history != []
    && (forall f :: 0 <= f < FIELDS ==> lead.contact[f] == FirstFilled(Column(history, f)))
    && lead.createdAt == FirstSome(CreatedColumn(history))
  }

  ghost predicate HistoryInv(leads: seq<Lead>, upserts: seq<Mapped>) {
    && (forall i :: 0 <= i < |leads| ==> Remembers(leads[i], UpsertsOf(upserts, leads[i].externalId)))
    && (forall id :: UpsertsOf(upserts, id) != [] ==> Find(leads, id) < |leads|)
  }

  /** Every lead has one notification row per destination of its office, and there are no others. */
  ghost predicate NotesInv(s: State) {
    forall note: Note :: multiset(s.notes)[note] ==
      (if note.lead < |s.leads| && note.to in DestinationsOf(s, s.leads[note.lead].office) then 1 else 0)
  }

  ghost predicate Inv(s: State) {
    && (forall id :: id in s.inbox ==> RowInv(s, id))
    && KeysInv(s)
    && HistoryInv(s.leads, s.upserts)
    && NotesInv(s)
  }

  lemma {:induction false} StepKeepsRows(s: State, e: Event)
    requires forall id :: id in s.inbox ==> RowInv(s, id)
    ensures forall id :: id in Next(s, e).inbox ==> RowInv(Next(s, e), id)
  {
    var s' := Next(s, e);
    forall id | id in s'.inbox ensures RowInv(s', id) {
      if id in s.inbox {
        assert RowInv(s, id);
      }
    }
  }

  lemma {:induction false} FindIs(leads: seq<Lead>, i: nat)
    requires i < |leads|
    requires OneLeadEach(leads)
    ensures Find(leads, leads[i].externalId) == i
  {
  }

  lemma {:induction false} StepKeepsKeys(s: State, e: Event)
    requires KeysInv(s)
    ensures KeysInv(Next(s, e))
  {
    if e.Commit? && e.token in s.txs {
      CommitKeepsKeys(s, e.token);
    }
  }

  /** A commit appends a lead or rewrites one; either way only the id it writes is concerned. */
  lemma {:induction false} CommitShape(s: State, token: Token)
    requires token in s.txs && Verdict(s.leads, s.txs[token])
    ensures var after := Committed(s, token).leads;
            var id := s.txs[token].mapped.externalId;
            && |s.leads| <= |after| <= |s.leads| + 1
            && (forall i :: 0 <= i < |s.leads| ==> s.leads[i].externalId == after[i].externalId)
            && (|after| == |s.leads| + 1 <==> Find(s.leads, id) == |s.leads|)
            && (|after| == |s.leads| + 1 ==> after[|s.leads|].externalId == id)
    ensures Committed(s, token).txs == s.txs - {token}
    ensures Committed(s, token).upserts == s.upserts + [s.txs[token].mapped]
  {
  }

  lemma {:induction false} CommitKeepsKeys(s: State, token: Token)
    requires KeysInv(s) && token in s.txs
    ensures KeysInv(Committed(s, token))
  {
    var after := Committed(s, token).leads;
    var id := s.txs[token].mapped.externalId;
    assert Verdict(s.leads, s.txs[token]);
    CommitShape(s, token);
    KeepsOneEach(s.leads, after, id);
    forall t | t in s.txs && t != token ensures Verdict(after, s.txs[t]) {
      assert Verdict(s.leads, s.txs[t]);
      FindFrame(s.leads, after, id, s.txs[t].mapped.externalId);
    }
  }

  lemma {:induction false} KeepsOneEach(leads: seq<Lead>, after: seq<Lead>, id: ExternalId)
    requires OneLeadEach(leads) && |leads| <= |after| <= |leads| + 1
    requires forall i :: 0 <= i < |leads| ==> leads[i].externalId == after[i].externalId
    requires |after| == |leads| + 1 ==> Find(leads, id) == |leads| && after[|leads|].externalId == id
    ensures OneLeadEach(after)
  {
  }

  /** Writing the lead of one external id does not change whether another id is found. */
  lemma {:induction false} FindFrame(leads: seq<Lead>, after: seq<Lead>, written: ExternalId, id: ExternalId)
    requires |leads| <= |after| <= |leads| + 1 && id != written
    requires forall i :: 0 <= i < |leads| ==> leads[i].externalId == after[i].externalId
    requires |after| == |leads| + 1 ==> after[|leads|].externalId == written
    ensures Find(leads, id) == |leads| <==> Find(after, id) == |after|
    ensures Find(leads, id) < |leads| ==> Find(after, id) == Find(leads, id)
  {
    var i, j := Find(leads, id), Find(after, id);
    if i < |leads| {
      assert after[i].externalId == id;
    }
    if j < |leads| {
      assert leads[j].externalId == id;
    }
  }

  lemma {:induction false} RemembersOne(m: Mapped, office: Office)
    ensures Remembers(Lead(m.externalId, m.contact, m.createdAt, office), [m])
  {
    forall f | 0 <= f < FIELDS ensures m.contact[f] == FirstFilled(Column([m], f)) {
      assert Column([m], f) == [m.contact[f]];
    }
    assert CreatedColumn([m]) == [m.createdAt];
    FirstSomeAppend([], m.createdAt);
  }

  lemma {:induction false} RemembersMore(lead: Lead, history: seq<Mapped>, m: Mapped)
    requires Remembers(lead, history)
    ensures Remembers(MergeLead(lead, m), history + [m])
  {
    forall f | 0 <= f < FIELDS ensures MergeLead(lead, m).contact[f] == FirstFilled(Column(history + [m], f)) {
      assert Column(history + [m], f) == Column(history, f) + [m.contact[f]];
      FirstFilledAppend(Column(history, f), m.contact[f]);
    }
    assert CreatedColumn(history + [m]) == CreatedColumn(history) + [m.createdAt];
    FirstSomeAppend(CreatedColumn(history), m.createdAt);
  }

  lemma {:induction false} CommitRemembers(s: State, token: Token, i: nat)
    requires KeysInv(s) && HistoryInv(s.leads, s.upserts) && token in s.txs && i < |Committed(s, token).leads|
    ensures var s' := Committed(s, token);
            Remembers(s'.leads[i], UpsertsOf(s'.upserts, s'.leads[i].externalId))
  {
    var s' := Committed(s, token);
    var m := s.txs[token].mapped;
    assert Verdict(s.leads, s.txs[token]);
    UpsertsOfAppend(s.upserts, m, s'.leads[i].externalId);
    if i == |s.leads| {
      RemembersOne(m, s.txs[token].office);
      assert UpsertsOf(s.upserts, m.externalId) == [];
      assert UpsertsOf(s'.upserts, m.externalId) == [m];
    } else {
      var history := UpsertsOf(s.upserts, s.leads[i].externalId);
      assert Remembers(s.leads[i], history);
      if s.leads[i].externalId == m.externalId {
        FindIs(s.leads, i);
        RemembersMore(s.leads[i], history, m);
      } else {
        assert s'.leads[i] == s.leads[i];
        assert history + [] == history;
      }
    }
  }

  lemma {:induction false} CommitFinds(s: State, token: Token, id: ExternalId)
    requires KeysInv(s) && HistoryInv(s.leads, s.upserts) && token in s.txs
    requires UpsertsOf(Committed(s, token).upserts, id) != []
    ensures Find(Committed(s, token).leads, id) < |Committed(s, token).leads|
  {
    var after := Committed(s, token).leads;
    var m := s.txs[token].mapped;
    assert Verdict(s.leads, s.txs[token]);
    CommitShape(s, token);
    UpsertsOfAppend(s.upserts, m, id);
    if id == m.externalId {
      Found(after, if Find(s.leads, id) < |s.leads| then Find(s.leads, id) else |s.leads|, id);
    } else {
      FindFrame(s.leads, after, m.externalId, id);
    }
  }

  lemma {:induction false} Found(leads: seq<Lead>, i: nat, id: ExternalId)
    requires i < |leads| && leads[i].externalId == id
    ensures Find(leads, id) < |leads|
  {
  }

  lemma {:induction false} CommitKeepsHistory(s: State, token: Token)
    requires KeysInv(s) && HistoryInv(s.leads, s.upserts) && token in s.txs
    ensures HistoryInv(Committed(s, token).leads, Committed(s, token).upserts)
  {
    var s' := Committed(s, token);
    forall i | 0 <= i < |s'.leads| ensures Remembers(s'.leads[i], UpsertsOf(s'.upserts, s'.leads[i].externalId)) {
      CommitRemembers(s, token, i);
    }
    forall id | UpsertsOf(s'.upserts, id) != [] ensures Find(s'.leads, id) < |s'.leads| {
      CommitFinds(s, token, id);
    }
  }

  lemma {:induction false} CommitKeepsNotes(s: State, token: Token)
    requires NotesInv(s) && token in s.txs
    ensures NotesInv(Committed(s, token))
  {
    var s' := Committed(s, token);
    var to := DestinationsOf(s, s.txs[token].office);
    forall note: Note ensures multiset(s'.notes)[note] ==
        (if note.lead < |s'.leads| && note.to in DestinationsOf(s', s'.leads[note.lead].office) then 1 else 0) {
      EnqueuedExactly(s.notes, |s.leads|, to, note);
      assert note in s.notes <==> multiset(s.notes)[note] > 0;
    }
  }

  lemma {:induction false} StepKeepsInv(s: State, e: Event)
    requires Inv(s)
    ensures Inv(Next(s, e))
  {
    StepKeepsRows(s, e);
    StepKeepsKeys(s, e);
    if e.Commit? && e.token in s.txs {
      CommitKeepsHistory(s, e.token);
      CommitKeepsNotes(s, e.token);
    }
  }

  lemma {:induction false} RunKeepsInv(s: State, events: seq<Event>)
    requires Inv(s)
    ensures Inv(Run(s, events))
    decreases |events|
  {
    if events != [] {
      StepKeepsInv(s, events[0]);
      RunKeepsInv(Next(s, events[0]), events[1..]);
    }
  }

  // ---- what every run guarantees -------------------------------------------------------------

  /**
   However webhooks, reconciliation, retries and stale workers interleave: at most one lead per external id,
   and one exactly when some upsert of it committed.
   */
  lemma {:induction false} OneLeadPerExternalId(destinations: map<Office, seq<Destination>>, events: seq<Event>,
                                                id: ExternalId)
    ensures var s := Run(Start(destinations), events);
            && OneLeadEach(s.leads)
            && (UpsertsOf(s.upserts, id) != [] <==> exists i :: 0 <= i < |s.leads| && s.leads[i].externalId == id)
  {
    RunKeepsInv(Start(destinations), events);
    var s := Run(Start(destinations), events);
    if i :| 0 <= i < |s.leads| && s.leads[i].externalId == id {
      assert Remembers(s.leads[i], UpsertsOf(s.upserts, id));
    }
  }

  lemma {:induction false} DestinationsFixed(s: State, events: seq<Event>)
    ensures Run(s, events).destinations == s.destinations
    decreases |events|
  {
    if events != [] {
      DestinationsFixed(Next(s, events[0]), events[1..]);
    }
  }

  /** Each lead is announced once to each destination of its office, and to nobody else. */
  lemma {:induction false} OneNotificationPerDestination(destinations: map<Office, seq<Destination>>,
                                                         events: seq<Event>, note: Note)
    ensures var s := Run(Start(destinations), events);
            multiset(s.notes)[note]
            == if note.lead < |s.leads| && s.leads[note.lead].office in destinations
                  && note.to in destinations[s.leads[note.lead].office] then 1 else 0
  {
    RunKeepsInv(Start(destinations), events);
    DestinationsFixed(Start(destinations), events);
    assert NotesInv(Run(Start(destinations), events));
  }

  /** A contact field of a lead is the first non-blank value any committed upsert carried for it. */
  lemma {:induction false} ContactIsFirstFilled(destinations: map<Office, seq<Destination>>, events: seq<Event>,
                                                i: nat, f: nat, k: nat)
    requires i < |Run(Start(destinations), events).leads| && f < FIELDS
    requires var s := Run(Start(destinations), events);
             var history := UpsertsOf(s.upserts, s.leads[i].externalId);
             && k < |history| && !Empty(history[k].contact[f])
             && forall j :: 0 <= j < k ==> Empty(history[j].contact[f])
    ensures var s := Run(Start(destinations), events);
            s.leads[i].contact[f] == UpsertsOf(s.upserts, s.leads[i].externalId)[k].contact[f]
  {
    RunKeepsInv(Start(destinations), events);
    var s := Run(Start(destinations), events);
    var history := UpsertsOf(s.upserts, s.leads[i].externalId);
    assert Remembers(s.leads[i], history);
    FirstFilledIs(Column(history, f), k);
  }

  /** An event that may still be worked on has attempts left; a processed one has its lead. */
  lemma {:induction false} OpenEventsHaveAttempts(destinations: map<Office, seq<Destination>>, events: seq<Event>,
                                                  id: EventId)
    requires id in Run(Start(destinations), events).inbox
    ensures var s := Run(Start(destinations), events);
            && (Open(s.inbox[id].status) ==> s.inbox[id].attempts < MAX_ATTEMPTS)
            && (s.inbox[id].status.Processed? ==> s.inbox[id].lead.Some? && s.inbox[id].lead.value < |s.leads|)
  {
    RunKeepsInv(Start(destinations), events);
    assert RowInv(Run(Start(destinations), events), id);
  }

  lemma {:induction false} ClosedEventStep(s: State, e: Event, id: EventId)
    requires id in s.inbox && RowInv(s, id) && !Open(s.inbox[id].status)
    ensures id in Next(s, e).inbox && Next(s, e).inbox[id] == s.inbox[id]
  {
  }

  /** Processed, ignored and dead-letter events are never touched again, not even by a late worker. */
  lemma {:induction false} ClosedEventsStay(s: State, events: seq<Event>, id: EventId)
    requires Inv(s) && id in s.inbox && !Open(s.inbox[id].status)
    ensures id in Run(s, events).inbox && Run(s, events).inbox[id] == s.inbox[id]
    decreases |events|
  {
    if events != [] {
      ClosedEventStep(s, events[0], id);
      StepKeepsInv(s, events[0]);
      ClosedEventsStay(Next(s, events[0]), events[1..], id);
    }
  }

  /** A worker whose lease was taken over still delivers its upsert, but does not close the event. */
  lemma {:induction false} StaleCommitKeepsEvent(s: State, token: Token)
    requires Inv(s) && token in s.txs && !Holds(s, token)
    ensures Next(s, Commit(token)).inbox == s.inbox
    ensures Next(s, Commit(token)).upserts == s.upserts + [s.txs[token].mapped]
  {
    assert Verdict(s.leads, s.txs[token]);
  }

  // ---- what the statements select and write --------------------------------------------------

  /** The first webhook of an id leaves it to the worker when its page is configured; a repeat changes nothing. */
  lemma {:induction false} ReceiveWrites(s: State, id: EventId, configured: bool, now: int)
    ensures var after := Next(s, Receive(id, configured, now));
            var row := Row(if configured then Pending else Ignored, 0, now, None, None, None);
            after == if id in s.inbox then s else s.(inbox := s.inbox[id := row])
  {
  }

  /** An event is claimed when it has attempts left and is due: a new one, a retry, or one whose lease is over. */
  lemma {:induction false} ClaimWrites(s: State, token: Token, id: EventId, now: int, includeRetries: bool)
    requires token !in s.claims && id in s.inbox
    ensures var row := s.inbox[id];
            var due := && row.attempts < 10 && row.nextAttemptAt <= now
                       && (row.status == Pending || (includeRetries && row.status == Retry)
                           || (row.status == Processing && row.claimedAt.Some?
                               && row.claimedAt.value + 300_000_000 < now));
            var taken := Row(Processing, row.attempts, row.nextAttemptAt, Some(now), Some(token), row.lead);
            Next(s, ClaimEvent(token, id, now, includeRetries))
            == if due then s.(inbox := s.inbox[id := taken], claims := s.claims[token := Claim(id, row.attempts)])
               else s
  {
  }

  /** Seconds before the next attempt after `attempt` failed ones. */
  function WaitSeconds(attempt: int): int
    requires attempt >= 1
  {
    var table := [15, 60, 5 * 60, 15 * 60, 60 * 60];
    if attempt <= |table| then table[attempt - 1] else 6 * 60 * 60
  }

  /** A failure of the holder counts, and retries until the tenth one or a permanent one ends it. */
  lemma {:induction false} FailWrites(s: State, token: Token, retryable: bool, now: int)
    requires Inv(s) && token in s.claims
    requires s.claims[token].event in s.inbox && s.inbox[s.claims[token].event].token == Some(token)
    ensures var id := s.claims[token].event;
            var row, after := s.inbox[id], Next(s, Fail(token, retryable, now));
            && after == s.(inbox := s.inbox[id := after.inbox[id]])
            && after.inbox[id] == Row(after.inbox[id].status, row.attempts + 1,
                                      now + WaitSeconds(row.attempts + 1) * 1_000_000, None, None, row.lead)
            && (after.inbox[id].status == Retry <==> retryable && row.attempts + 1 < 10)
            && (after.inbox[id].status == DeadLetter <==> !(retryable && row.attempts + 1 < 10))
  {
    assert RowInv(s, s.claims[token].event);
  }

  /** What failed and is not dead is taken up again by a sweep with retries, and by no other, when its time has come. */
  lemma {:induction false} FailedIsRetried(s: State, token: Token, now: int, other: Token, at: int,
                                           includeRetries: bool)
    requires Inv(s) && token in s.claims && other !in s.claims
    requires s.claims[token].event in s.inbox && s.inbox[s.claims[token].event].token == Some(token)
    ensures var id := s.claims[token].event;
            var failed := Next(s, Fail(token, true, now));
            var attempts := s.inbox[id].attempts + 1;
            other in Next(failed, ClaimEvent(other, id, at, includeRetries)).claims
            <==> attempts < 10 && includeRetries && at >= now + WaitSeconds(attempts) * 1_000_000
  {
    var id := s.claims[token].event;
    FailWrites(s, token, true, now);
    assert RowInv(s, id);
    ClaimWrites(Next(s, Fail(token, true, now)), other, id, at, includeRetries);
  }

  /** An event that is too old is ignored by its holder, with nothing else changed. */
  lemma {:induction false} IgnoreWrites(s: State, token: Token)
    requires token in s.claims && s.claims[token].event in s.inbox
    requires s.inbox[s.claims[token].event].token == Some(token)
    ensures var id := s.claims[token].event;
            Next(s, IgnoreOld(token))
            == s.(inbox := s.inbox[id := s.inbox[id].(status := Ignored, claimedAt := None, token := None)])
  {
  }

  /** The text is not blank: something in it is no space. */
  predicate Filled(field: Option<string>) {
    field.Some? && exists i :: 0 <= i < |field.value| && field.value[i] != ' '
  }

  /** The stored lead with the gaps filled: what it has stays, what it lacks is taken from the upsert. */
  predicate FilledIn(before: Lead, m: Mapped, after: Lead) {
    && after.externalId == before.externalId && after.office == before.office
    && after.createdAt == (if before.createdAt.Some? then before.createdAt else m.createdAt)
    && forall f :: 0 <= f < 15 ==>
         after.contact[f] == if Filled(before.contact[f]) then before.contact[f] else m.contact[f]
  }

  lemma {:induction false} MergeFillsIn(before: Lead, m: Mapped)
    ensures FilledIn(before, m, MergeLead(before, m))
  {
    forall f | 0 <= f < 15 ensures Empty(before.contact[f]) <==> !Filled(before.contact[f]) {
    }
  }

  /** A commit stores the lead of its upsert, new or filled in, and nothing happens to the others. */
  lemma {:induction false} CommitStoresLead(s: State, token: Token)
    requires Inv(s) && token in s.txs
    ensures var m, after := s.txs[token].mapped, Next(s, Commit(token)).leads;
            if i: nat :| i < |s.leads| && s.leads[i].externalId == m.externalId
            then after == s.leads[i := after[i]] && FilledIn(s.leads[i], m, after[i])
            else after == s.leads + [Lead(m.externalId, m.contact, m.createdAt, s.txs[token].office)]
  {
    var m := s.txs[token].mapped;
    assert Verdict(s.leads, s.txs[token]);
    var at := Find(s.leads, m.externalId);
    if i: nat :| i < |s.leads| && s.leads[i].externalId == m.externalId {
      assert at == i;
      MergeFillsIn(s.leads[i], m);
    }
  }

  /** And when the token still holds, its event is processed and points to that lead. */
  lemma {:induction false} CommitClosesEvent(s: State, token: Token)
    requires Inv(s) && token in s.txs && token in s.claims && s.claims[token].event in s.inbox
    requires s.inbox[s.claims[token].event].token == Some(token)
    ensures var id := s.claims[token].event;
            var after := Next(s, Commit(token));
            && after.inbox == s.inbox[id := after.inbox[id]]
            && after.inbox[id].status == Processed && after.inbox[id].attempts == s.inbox[id].attempts + 1
            && after.inbox[id].token == None && after.inbox[id].lead.Some?
            && after.inbox[id].lead.value < |after.leads|
            && after.leads[after.inbox[id].lead.value].externalId == s.txs[token].mapped.externalId
  {
    assert Verdict(s.leads, s.txs[token]);
    assert RowInv(s, s.claims[token].event);
  }

  // ---- the lease over whole runs -------------------------------------------------------------

  /** The step ends the work on the event: it is processed, ignored, to be retried, or a dead letter. */
  predicate Settles(s: State, e: Event, id: EventId) {
    && id in s.inbox && s.inbox[id].status == Processing
    && id in Next(s, e).inbox && Next(s, e).inbox[id].status != Processing
  }

  predicate NeverSettles(s: State, events: seq<Event>, id: EventId)
    decreases |events|
  {
    events != [] ==> !Settles(s, events[0], id) && NeverSettles(Next(s, events[0]), events[1..], id)
  }

  predicate Claims(s: State, e: Event, id: EventId) {
    e.ClaimEvent? && e.id == id && e.token !in s.claims && e.token in Next(s, e).claims
  }

  /** The time of the last claim of an event along a run, `at` when there is none. */
  function LastClaimAt(s: State, events: seq<Event>, id: EventId, at: int): int
    decreases |events|
  {
    if events == [] then at
    else LastClaimAt(Next(s, events[0]), events[1..], id, if Claims(s, events[0], id) then events[0].now else at)
  }

  /** At work under a claim that was due when it was taken. */
  predicate AtWork(row: Row) {
    && row.status == Processing && row.claimedAt.Some? && row.attempts < 10 && row.nextAttemptAt <= row.claimedAt.value
  }

  lemma {:induction false} WorkStep(s: State, e: Event, id: EventId)
    requires id in s.inbox && AtWork(s.inbox[id]) && !Settles(s, e, id)
    ensures id in Next(s, e).inbox && AtWork(Next(s, e).inbox[id])
    ensures Next(s, e).inbox[id].claimedAt == if Claims(s, e, id) then Some(e.now) else s.inbox[id].claimedAt
  {
  }

  lemma {:induction false} WorkGoesOn(s: State, events: seq<Event>, id: EventId)
    requires id in s.inbox && AtWork(s.inbox[id]) && NeverSettles(s, events, id)
    ensures id in Run(s, events).inbox && AtWork(Run(s, events).inbox[id])
    ensures Run(s, events).inbox[id].claimedAt == Some(LastClaimAt(s, events, id, s.inbox[id].claimedAt.value))
    decreases |events|
  {
    if events != [] {
      WorkStep(s, events[0], id);
      WorkGoesOn(Next(s, events[0]), events[1..], id);
    }
  }

  /**
   An event at work that nothing has settled since its claim can be claimed again exactly when the last claim is more
   than five minutes old, in either kind of sweep.
   */
  lemma {:induction false} EventReclaimIff(s: State, first: Event, between: seq<Event>, id: EventId, other: Token,
                                           now: int, includeRetries: bool)
    requires id in s.inbox && Claims(s, first, id) && NeverSettles(Next(s, first), between, id)
    requires other !in Run(Next(s, first), between).claims
    ensures Claims(Run(Next(s, first), between), ClaimEvent(other, id, now, includeRetries), id)
       <==> now > LastClaimAt(Next(s, first), between, id, first.now) + 300_000_000
  {
    var t := Run(Next(s, first), between);
    WorkGoesOn(Next(s, first), between, id);
    ClaimWrites(t, other, id, now, includeRetries);
  }
}
