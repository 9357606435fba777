/**
 Notification delivery (internal/notifications/dispatcher.go): workers claim outbox rows with a
 fresh token and a five-minute lease, send, and mark the result only while the token still matches.

 Times are microseconds. `now()` in PostgreSQL is the start of the transaction, so the time of a
 claim is a free parameter of the step: nothing here needs claims to happen in clock order.
 */
module Delivery {
  import opened Prelude

  type Token = nat
  type RowId = nat

  datatype Status = Pending | Failed | Sent

  datatype Row = Row(status: Status, attempts: int, nextAttemptAt: int, claimedAt: Option<int>, token: Option<Token>)

  const MAX_ATTEMPTS := 10
  const LEASE := 300_000_000
  const HOUR_NANOS := 3_600_000_000_000

  /** Rows the claim query may return; rows locked by another claim are skipped, which only narrows the choice. */
  predicate Eligible(row: Row, now: int, includeFailed: bool) {
    && (row.status.Pending? || (includeFailed && row.status.Failed?))
    && row.attempts < MAX_ATTEMPTS
    && row.nextAttemptAt <= now
    && (row.claimedAt.None? || row.claimedAt.value < now - LEASE)
  }

  function Claimed(row: Row, token: Token, now: int): Row {
    row.(claimedAt := Some(now), token := Some(token))
  }

  function MarkedSent(row: Row, attempts: int): Row {
    row.(status := Sent, attempts := attempts, claimedAt := None, token := None)
  }

  /** The delay is at least one millisecond; a non-positive delay means one hour. */
  function RetryMillis(delayNanos: int): (ms: int)
    ensures ms >= 1
  {
    var delay := if delayNanos <= 0 then HOUR_NANOS else delayNanos;
    if delay / 1_000_000 <= 0 then 1 else delay / 1_000_000
  }

  function MarkedFailed(row: Row, attempts: int, now: int, delayNanos: int): Row {
    row.(status := Failed, attempts := attempts, nextAttemptAt := now + RetryMillis(delayNanos) * 1000,
         claimedAt := None, token := None)
  }

  /**
   A failed delivery rests for its delay, an hour without one and a millisecond at least, and is then taken up again
   only by a sweep that includes failures and only while attempts are left.
   */
  lemma {:induction false} FailedRowWaits(row: Row, attempts: int, now: int, delayNanos: int, later: int,
                                          includeFailed: bool)
    ensures var failed := MarkedFailed(row, attempts, now, delayNanos);
            var rest := if delayNanos <= 0 then HOUR_NANOS else delayNanos;
            Eligible(failed, later, includeFailed)
            <==> includeFailed && attempts < MAX_ATTEMPTS
                 && later >= now + 1000 && (later - now) / 1000 >= rest / 1_000_000
  {
  }

  // ---- any number of workers -----------------------------------------------------------------

  /** What the worker that drew a token remembers: the row and its attempts when it claimed. */
  datatype Claim = Claim(row: RowId, attempts: int)

  /** `claims` holds every token ever drawn. A crashed worker is one that never marks. */
  datatype State = State(rows: seq<Row>, claims: map<Token, Claim>)

  datatype Event =
    | Enqueue(now: int)
    | ClaimRow(token: Token, row: RowId, now: int, includeFailed: bool)
    | MarkSent(token: Token)
    | MarkFailed(token: Token, now: int, delayNanos: int)

  predicate Claims(s: State, e: Event, r: RowId) {
    e.ClaimRow? && e.row == r && e.token !in s.claims && r < |s.rows| && Eligible(s.rows[r], e.now, e.includeFailed)
  }

  predicate Holds(s: State, token: Token) {
    token in s.claims && s.claims[token].row < |s.rows| && s.rows[s.claims[token].row].token == Some(token)
  }

  /** The mark's `where claim_token = ...` matches row `r`. */
  predicate Accepts(s: State, e: Event, r: RowId) {
    (e.MarkSent? || e.MarkFailed?) && Holds(s, e.token) && s.claims[e.token].row == r
  }

  function Next(s: State, e: Event): State {
    match e
    case Enqueue(now) => s.(rows := s.rows + [Row(Pending, 0, now, None, None)])
    case ClaimRow(token, r, now, _) =>
      if !Claims(s, e, r) then s
      else State(s.rows[r := Claimed(s.rows[r], token, now)], s.claims[token := Claim(r, s.rows[r].attempts)])
    case MarkSent(token) =>
      if !Holds(s, token) then s
      else
        var c := s.claims[token];
        s.(rows := s.rows[c.row := MarkedSent(s.rows[c.row], c.attempts + 1)])
    case MarkFailed(token, now, delayNanos) =>
      if !Holds(s, token) then s
      else
        var c := s.claims[token];
        s.(rows := s.rows[c.row := MarkedFailed(s.rows[c.row], c.attempts + 1, now, delayNanos)])
  }

  function Run(s: State, events: seq<Event>): State
    decreases |events|
  {
    if events == [] then s else Run(Next(s, events[0]), events[1..])
  }

  predicate RowInv(row: Row) {
    && 0 <= row.attempts <= MAX_ATTEMPTS
    && (row.token.Some? <==> row.claimedAt.Some?)
    && (row.token.Some? ==> row.attempts < MAX_ATTEMPTS && !row.status.Sent?)
  }

  /** The token on a row is one that was drawn for it, and its holder's snapshot is the stored attempts. */
  predicate HolderInv(s: State, r: RowId)
    requires r < |s.rows|
  {
    s.rows[r].token.Some? ==>
      var token := s.rows[r].token.value;
      token in s.claims && s.claims[token] == Claim(r, s.rows[r].attempts)
  }

  ghost predicate Inv(s: State) {
    && (forall r :: 0 <= r < |s.rows| ==> RowInv(s.rows[r]) && HolderInv(s, r))
    && (forall token :: token in s.claims ==> s.claims[token].row < |s.rows|)
  }

  lemma {:induction false} StepKeepsInv(s: State, e: Event)
    requires Inv(s)
    ensures Inv(Next(s, e)) && |s.rows| <= |Next(s, e).rows|
  {
    var s' := Next(s, e);
    forall r | 0 <= r < |s'.rows| ensures RowInv(s'.rows[r]) && HolderInv(s', r) {
      if r < |s.rows| {
        assert RowInv(s.rows[r]) && HolderInv(s, r);
      }
    }
  }

  lemma {:induction false} RunKeepsInv(s: State, events: seq<Event>)
    requires Inv(s)
    ensures Inv(Run(s, events)) && |s.rows| <= |Run(s, events).rows|
    decreases |events|
  {
    if events != [] {
      StepKeepsInv(s, events[0]);
      RunKeepsInv(Next(s, events[0]), events[1..]);
    }
  }

  /** A mark by a worker whose token was superseded, or never drawn, changes nothing. */
  lemma {:induction false} SupersededMarkIsVoid(s: State, e: Event)
    requires Inv(s)
    requires e.MarkSent? || e.MarkFailed?
    requires !Holds(s, e.token)
    ensures Next(s, e) == s
  {
  }

  /** Once superseded (or used), a token never matches again. */
  lemma {:induction false} SupersededForever(s: State, events: seq<Event>, token: Token)
    requires Inv(s) && token in s.claims && !Holds(s, token)
    ensures token in Run(s, events).claims && !Holds(Run(s, events), token)
    decreases |events|
  {
    if events != [] {
      StepKeepsInv(s, events[0]);
      var s' := Next(s, events[0]);
      assert s'.claims[token] == s.claims[token];
      SupersededForever(s', events[1..], token);
    }
  }

  /** Accepted marks of row `r` along a run. */
  function AcceptedMarks(s: State, events: seq<Event>, r: RowId): nat
    decreases |events|
  {
    if events == [] then 0
    else (if Accepts(s, events[0], r) then 1 else 0) + AcceptedMarks(Next(s, events[0]), events[1..], r)
  }

  /** Attempts count accepted marks exactly, so no row ever gets more than ten of them. */
  lemma {:induction false} AttemptsCountAcceptedMarks(s: State, events: seq<Event>, r: RowId)
    requires Inv(s) && r < |s.rows|
    ensures r < |Run(s, events).rows|
    ensures Run(s, events).rows[r].attempts == s.rows[r].attempts + AcceptedMarks(s, events, r)
    ensures AcceptedMarks(s, events, r) <= MAX_ATTEMPTS - s.rows[r].attempts
    decreases |events|
  {
    assert RowInv(s.rows[r]) && HolderInv(s, r);
    if events != [] {
      StepKeepsInv(s, events[0]);
      AttemptsCountAcceptedMarks(Next(s, events[0]), events[1..], r);
    }
    RunKeepsInv(s, events);
  }

  /** `sent` is final: whatever any worker does later, the row stays as it is, field for field. */
  lemma {:induction false} SentIsFinal(s: State, events: seq<Event>, r: RowId)
    requires Inv(s) && r < |s.rows| && s.rows[r].status.Sent?
    ensures r < |Run(s, events).rows| && Run(s, events).rows[r] == s.rows[r]
    decreases |events|
  {
    if events != [] {
      assert RowInv(s.rows[r]);
      StepKeepsInv(s, events[0]);
      assert Next(s, events[0]).rows[r] == s.rows[r];
      SentIsFinal(Next(s, events[0]), events[1..], r);
    }
  }

  lemma {:induction false} LeaseHeld(s: State, events: seq<Event>, r: RowId, since: int)
    requires Inv(s) && r < |s.rows| && s.rows[r].claimedAt.Some? && since <= s.rows[r].claimedAt.value
    requires AcceptedMarks(s, events, r) == 0
    ensures r < |Run(s, events).rows|
    ensures Run(s, events).rows[r].claimedAt.Some? && since <= Run(s, events).rows[r].claimedAt.value
    decreases |events|
  {
    if events != [] {
      StepKeepsInv(s, events[0]);
      assert HolderInv(s, r);
      LeaseHeld(Next(s, events[0]), events[1..], r, since);
    }
  }

  /** Two claims of one row with no accepted mark between them are more than five minutes apart. */
  lemma {:induction false} LeaseGap(s: State, first: Event, between: seq<Event>, second: Event, r: RowId)
    requires Inv(s) && Claims(s, first, r)
    requires AcceptedMarks(Next(s, first), between, r) == 0
    requires Claims(Run(Next(s, first), between), second, r)
    ensures second.now > first.now + LEASE
  {
    StepKeepsInv(s, first);
    LeaseHeld(Next(s, first), between, r, first.now);
  }

  /** The time of the last claim of row `r` along a run, `at` when there is none. */
  function LastClaimAt(s: State, events: seq<Event>, r: RowId, at: int): int
    decreases |events|
  {
    if events == [] then at
    else LastClaimAt(Next(s, events[0]), events[1..], r, if Claims(s, events[0], r) then events[0].now else at)
  }

  /** Until a mark is accepted only the time and the token of a claimed row change, to those of the last claim. */
  lemma {:induction false} OnlyReclaimed(s: State, events: seq<Event>, r: RowId)
    requires Inv(s) && r < |s.rows| && s.rows[r].claimedAt.Some?
    requires s.rows[r].nextAttemptAt <= s.rows[r].claimedAt.value
    requires AcceptedMarks(s, events, r) == 0
    ensures Inv(Run(s, events)) && r < |Run(s, events).rows|
    ensures var row := Run(s, events).rows[r];
            && row == s.rows[r].(claimedAt := row.claimedAt, token := row.token)
            && row.claimedAt == Some(LastClaimAt(s, events, r, s.rows[r].claimedAt.value))
            && row.nextAttemptAt <= row.claimedAt.value
    decreases |events|
  {
    if events != [] {
      ReclaimStep(s, events[0], r);
      OnlyReclaimed(Next(s, events[0]), events[1..], r);
    }
  }

  lemma {:induction false} ReclaimStep(s: State, e: Event, r: RowId)
    requires Inv(s) && r < |s.rows| && s.rows[r].claimedAt.Some? && !Accepts(s, e, r)
    requires s.rows[r].nextAttemptAt <= s.rows[r].claimedAt.value
    ensures Inv(Next(s, e)) && r < |Next(s, e).rows|
    ensures Next(s, e).rows[r] == if Claims(s, e, r) then Claimed(s.rows[r], e.token, e.now) else s.rows[r]
    ensures Claims(s, e, r) ==> s.rows[r].nextAttemptAt <= e.now
  {
    StepKeepsInv(s, e);
    assert HolderInv(s, r);
  }

  /**
   A claimed row that no accepted mark has settled can be claimed again exactly when the last claim's lease is over and
   the sweep takes rows of its status: nothing else about the row has to fit again.
   */
  lemma {:induction false} ReclaimIff(s: State, first: Event, between: seq<Event>, second: Event, r: RowId)
    requires Inv(s) && Claims(s, first, r)
    requires AcceptedMarks(Next(s, first), between, r) == 0
    requires second.ClaimRow? && second.row == r && second.token !in Run(Next(s, first), between).claims
    ensures Claims(Run(Next(s, first), between), second, r)
       <==> && second.now > LastClaimAt(Next(s, first), between, r, first.now) + LEASE
            && (s.rows[r].status.Pending? || second.includeFailed)
  {
    assert RowInv(s.rows[r]);
    StepKeepsInv(s, first);
    OnlyReclaimed(Next(s, first), between, r);
  }

  lemma {:induction false} ClaimsStay(s: State, events: seq<Event>, token: Token)
    requires token in s.claims
    ensures token in Run(s, events).claims && Run(s, events).claims[token] == s.claims[token]
    decreases |events|
  {
    if events != [] {
      ClaimsStay(Next(s, events[0]), events[1..], token);
    }
  }

  /**
   Delivery is at least once, not exactly once: after a second claim the first worker still holds the row's data and
   may send it, but whatever it marks is void, while the second worker's mark counts.
   */
  lemma {:induction false} LateWorkerSendsTwice(s: State, first: Event, between: seq<Event>, second: Event, r: RowId)
    requires Inv(s) && Claims(s, first, r)
    requires Claims(Run(Next(s, first), between), second, r)
    ensures var both := Next(Run(Next(s, first), between), second);
            && first.token in both.claims && both.claims[first.token].row == r
            && (forall e: Event :: (e.MarkSent? || e.MarkFailed?) && e.token == first.token ==> Next(both, e) == both)
            && Accepts(both, MarkSent(second.token), r)
            && Next(both, MarkSent(second.token)).rows[r].status.Sent?
  {
    StepKeepsInv(s, first);
    ClaimsStay(Next(s, first), between, first.token);
    RunKeepsInv(Next(s, first), between);
  }

  // ---- what the statements select and write --------------------------------------------------

  /** A new row can be claimed in either kind of sweep, from the moment it was enqueued for. */
  lemma {:induction false} NewRowIsClaimable(s: State, now: int, token: Token, at: int, includeFailed: bool)
    requires token !in s.claims
    ensures var r := |s.rows|;
            var added := Next(s, Enqueue(now));
            var claimed := Next(added, ClaimRow(token, r, at, includeFailed));
            && |added.rows| == r + 1 && added.rows[..r] == s.rows && added.claims == s.claims
            && |claimed.rows| == r + 1
            && (token in claimed.claims <==> at >= now)
            && (at >= now ==> claimed.rows[r].token == Some(token) && claimed.rows[r].claimedAt == Some(at))
  {
  }

  /** A claim that is granted stamps its row and takes note of its attempts, and changes nothing else. */
  lemma {:induction false} ClaimWrites(s: State, token: Token, r: RowId, at: int, includeFailed: bool)
    requires token !in s.claims && r < |s.rows|
    ensures var row := s.rows[r];
            var after := Next(s, ClaimRow(token, r, at, includeFailed));
            var due := && (row.status == Pending || (includeFailed && row.status == Failed)) && row.attempts < 10
                       && row.nextAttemptAt <= at
                       && (row.claimedAt.None? || row.claimedAt.value < at - 5 * 60 * 1_000_000);
            && |after.rows| == |s.rows| && (forall i :: 0 <= i < |s.rows| && i != r ==> after.rows[i] == s.rows[i])
            && after.rows[r] == (if due then Row(row.status, row.attempts, row.nextAttemptAt, Some(at), Some(token))
                                 else row)
            && after.claims == if due then s.claims[token := Claim(r, row.attempts)] else s.claims
  {
  }

  /** A mark by the holder writes the outcome and one more attempt, frees the row, and touches no other row. */
  lemma {:induction false} MarkWrites(s: State, token: Token, r: RowId, now: int, delayNanos: int)
    requires Inv(s) && r < |s.rows| && s.rows[r].token == Some(token)
    ensures var row := s.rows[r];
            var sent, failed := Next(s, MarkSent(token)), Next(s, MarkFailed(token, now, delayNanos));
            && sent.rows == s.rows[r := Row(Sent, row.attempts + 1, row.nextAttemptAt, None, None)]
            && |failed.rows| == |s.rows|
            && (forall i :: 0 <= i < |s.rows| && i != r ==> failed.rows[i] == s.rows[i])
            && failed.rows[r].status == Failed && failed.rows[r].attempts == row.attempts + 1
            && failed.rows[r].claimedAt == None && failed.rows[r].token == None
            && WaitsMicros(failed.rows[r].nextAttemptAt - now, delayNanos)
  {
    assert HolderInv(s, r);
  }

  /** Whole milliseconds: of the delay, of an hour when there is none, and one at least. */
  predicate WaitsMicros(micros: int, delayNanos: int) {
    && (delayNanos <= 0 ==> micros == 3_600_000_000)
    && (0 < delayNanos < 1_000_000 ==> micros == 1000)
    && (1_000_000 <= delayNanos ==> micros % 1000 == 0 && 0 <= delayNanos - micros * 1000 < 1_000_000)
  }

  // ---- one dispatcher, one sweep -------------------------------------------------------------

  function Remaining(rows: seq<Row>): int {
    if rows == [] then 0 else RemainingOf(rows[0]) + Remaining(rows[1..])
  }

  /** Attempts this row may still take. */
  function RemainingOf(row: Row): int {
    if row.status.Sent? then 0 else MAX_ATTEMPTS - row.attempts
  }

  lemma {:induction false} RemainingUpdate(rows: seq<Row>, i: nat, row: Row)
    requires i < |rows|
    ensures Remaining(rows[i := row]) == Remaining(rows) - RemainingOf(rows[i]) + RemainingOf(row)
  {
    if i == 0 {
      assert rows[i := row][1..] == rows[1..];
    } else {
      assert rows[i := row][1..] == rows[1..][i - 1 := row];
      RemainingUpdate(rows[1..], i - 1, row);
    }
  }

  lemma {:induction false} RemainingNonNegative(rows: seq<Row>)
    requires forall r :: 0 <= r < |rows| ==> RowInv(rows[r])
    ensures Remaining(rows) >= 0
  {
    if rows != [] {
      assert RowInv(rows[0]);
      RemainingNonNegative(rows[1..]);
    }
  }

  function SentRows(rows: seq<Row>): nat {
    if rows == [] then 0 else (if rows[0].status == Sent then 1 else 0) + SentRows(rows[1..])
  }

  lemma {:induction false} SentUpdate(rows: seq<Row>, i: nat, row: Row)
    requires i < |rows| && !rows[i].status.Sent?
    ensures SentRows(rows[i := row]) == SentRows(rows) + if row.status == Sent then 1 else 0
  {
    if i == 0 {
      assert rows[i := row][1..] == rows[1..];
    } else {
      assert rows[i := row][1..] == rows[1..][i - 1 := row];
      SentUpdate(rows[1..], i - 1, row);
    }
  }

  datatype Outcome = Idle | Delivered | Undelivered | RateLimited
  datatype SendResult = Accepted | Rejected(delayNanos: int) | Throttled(delayNanos: int) | BadPayload

  function OutcomeOf(result: SendResult): Outcome {
    match result
    case Accepted => Delivered
    case Rejected(_) => Undelivered
    case BadPayload => Undelivered
    case Throttled(_) => RateLimited
  }

  /** The row after one whole delivery whose mark was accepted. */
  function Settled(row: Row, result: SendResult, now: int): Row {
    match result
    case Accepted => MarkedSent(row, row.attempts + 1)
    case Rejected(delay) => MarkedFailed(row, row.attempts + 1, now, delay)
    case Throttled(delay) => MarkedFailed(row, row.attempts + 1, now, delay)
    case BadPayload => MarkedFailed(row, row.attempts + 1, now, HOUR_NANOS)
  }

  /** A delivery counts and leaves the row sent, or to wait and try again: an hour for what cannot be read. */
  lemma {:induction false} SettledMeans(row: Row, result: SendResult, now: int)
    ensures var after := Settled(row, result, now);
            && after.attempts == row.attempts + 1 && after.token == None && after.claimedAt == None
            && (OutcomeOf(result) == Delivered <==> result == Accepted)
            && (OutcomeOf(result) == RateLimited <==> result.Throttled?)
            && (OutcomeOf(result) == Undelivered <==> result.Rejected? || result == BadPayload)
            && (after.status == Sent <==> result == Accepted) && (after.status == Failed <==> result != Accepted)
            && (result == Accepted ==> after.nextAttemptAt == row.nextAttemptAt)
            && (result == BadPayload ==> after.nextAttemptAt == now + 3_600_000_000)
            && (result.Rejected? || result.Throttled? ==> WaitsMicros(after.nextAttemptAt - now, result.delayNanos))
  {
  }

  function MarkOf(token: Token, result: SendResult, now: int): Event {
    match result
    case Accepted => MarkSent(token)
    case Rejected(delay) => MarkFailed(token, now, delay)
    case Throttled(delay) => MarkFailed(token, now, delay)
    case BadPayload => MarkFailed(token, now, HOUR_NANOS)
  }

  /** One delivery of the single dispatcher is a claim and an accepted mark of the many-worker protocol. */
  lemma {:induction false} SettledIsClaimThenMark(s: State, claim: Event, r: RowId, result: SendResult, now: int)
    requires Inv(s) && Claims(s, claim, r)
    ensures Accepts(Next(s, claim), MarkOf(claim.token, result, now), r)
    ensures Next(Next(s, claim), MarkOf(claim.token, result, now)).rows == s.rows[r := Settled(s.rows[r], result, now)]
  {
    assert Next(s, claim).rows[r] == Claimed(s.rows[r], claim.token, claim.now);
  }

  datatype Stop = Drained | Throttle | Interrupted

  /** The dispatcher process with the outbox to itself; `rows` is ordered by created_at. */
  class Dispatcher {
    var rows: seq<Row>
    var clock: int
    var drawn: Token
    const batch: int

    constructor (rows: seq<Row>, clock: int, batchSize: int)
      ensures this.rows == rows && this.clock == clock && this.batch == (if batchSize <= 0 then 20 else batchSize)
    {
      this.rows, this.clock, this.drawn := rows, clock, 0;
      this.batch := if batchSize <= 0 then 20 else batchSize;
    }

    ghost predicate Valid()
      reads this
    {
      batch > 0 && forall r :: 0 <= r < |rows| ==> RowInv(rows[r])
    }

    /** The row may be sent now: its status, its attempts, its next attempt and a claim of five minutes ago. */
    ghost predicate Due(row: Row, includeFailed: bool)
      reads this
    {
      && (row.status == Pending || (includeFailed && row.status == Failed)) && row.attempts < 10
      && row.nextAttemptAt <= clock && (row.claimedAt == None || row.claimedAt.value + 300_000_000 < clock)
    }

    ghost predicate Exhausted(includeFailed: bool)
      reads this
    {
      forall r :: 0 <= r < |rows| ==> !Due(rows[r], includeFailed)
    }

    /** Oldest eligible row, or the length of the table. */
    method Pick(includeFailed: bool) returns (r: nat)
      requires Valid()
      ensures r <= |rows|
      ensures r < |rows| ==> Due(rows[r], includeFailed)
      ensures forall i :: 0 <= i < r ==> !Due(rows[i], includeFailed)
    {
      r := 0;
      while r < |rows| && !Eligible(rows[r], clock, includeFailed)
        invariant r <= |rows|
        invariant forall i :: 0 <= i < r ==> !Eligible(rows[i], clock, includeFailed)
      {
        r := r + 1;
      }
    }

    /** The network: any result, after any delay. */
    method Send() returns (result: SendResult)
      modifies `clock
      ensures clock >= old(clock)
    {
      var t: int :| t >= clock;
      clock := t;
      result :| true;
    }

    /** claimAndSendOne with every database call succeeding: the oldest due row is claimed, sent and marked. */
    method ClaimAndSendOne(includeFailed: bool) returns (outcome: Outcome, ghost r: nat, ghost result: SendResult)
      requires Valid()
      modifies this
      ensures Valid() && clock >= old(clock)
      ensures outcome.Idle? ==> rows == old(rows) && Exhausted(includeFailed)
      ensures !outcome.Idle? ==>
                && r < |old(rows)| && old(Due(rows[r], includeFailed))
                && (forall i :: 0 <= i < r ==> !old(Due(rows[i], includeFailed)))
                && rows == old(rows)[r := Settled(old(rows)[r], result, clock)]
                && outcome == OutcomeOf(result)
                && Remaining(rows) < old(Remaining(rows))
                && SentRows(rows) == old(SentRows(rows)) + if outcome.Delivered? then 1 else 0
    {
      result := Accepted;
      var i := Pick(includeFailed);
      r := i;
      if i == |rows| {
        return Idle, r, result;
      }
      var token, attempts := drawn, rows[i].attempts;
      drawn := drawn + 1;
      rows := rows[i := Claimed(rows[i], token, clock)];
      var sendResult := Send();
      result := sendResult;
      if rows[i].token == Some(token) {
        match sendResult {
          case Accepted => rows := rows[i := MarkedSent(rows[i], attempts + 1)];
          case Rejected(delay) => rows := rows[i := MarkedFailed(rows[i], attempts + 1, clock, delay)];
          case Throttled(delay) => rows := rows[i := MarkedFailed(rows[i], attempts + 1, clock, delay)];
          case BadPayload => rows := rows[i := MarkedFailed(rows[i], attempts + 1, clock, HOUR_NANOS)];
        }
      }
      assert RowInv(old(rows)[i]);
      assert rows == old(rows)[i := rows[i]];
      RemainingUpdate(old(rows), i, rows[i]);
      SentUpdate(old(rows), i, rows[i]);
      outcome := OutcomeOf(sendResult);
    }

    /** runOnce: at most one batch, stopping early when nothing is due or the provider throttles. */
    method RunOnce(includeFailed: bool) returns (sent: nat, failed: nat, ghost stop: Stop)
      requires Valid()
      modifies this
      ensures Valid() && clock >= old(clock) && |rows| == |old(rows)|
      ensures sent + failed <= batch
      ensures sent + failed + Remaining(rows) <= old(Remaining(rows))
      ensures SentRows(rows) == old(SentRows(rows)) + sent
      ensures stop.Drained? ==> Exhausted(includeFailed)
      ensures sent + failed < batch ==> !stop.Interrupted?
    {
      sent, failed, stop := 0, 0, Interrupted;
      for i := 0 to batch
        invariant Valid() && clock >= old(clock) && |rows| == |old(rows)|
        invariant sent + failed == i
        invariant sent + failed + Remaining(rows) <= old(Remaining(rows))
        invariant SentRows(rows) == old(SentRows(rows)) + sent
        invariant stop == Interrupted
      {
        var outcome, _, _ := ClaimAndSendOne(includeFailed);
        match outcome {
          case Idle =>
            stop := Drained;
            return;
          case Delivered => sent := sent + 1;
          case Undelivered => failed := failed + 1;
          case RateLimited =>
            failed := failed + 1;
            stop := Throttle;
            return;
        }
      }
    }

    /**
     sweep: batches until one comes back short. It stops, sends no more than the attempts that were
     left, and unless it was cancelled or throttled it leaves nothing due.
     */
    method Sweep(wake: bool) returns (totalSent: nat, totalFailed: nat, ghost stop: Stop)
      requires Valid()
      modifies this
      ensures Valid() && |rows| == |old(rows)|
      ensures totalSent + totalFailed + Remaining(rows) <= old(Remaining(rows))
      ensures totalSent + totalFailed <= old(Remaining(rows))
      ensures SentRows(rows) == old(SentRows(rows)) + totalSent
      ensures stop.Drained? ==> Exhausted(!wake)
    {
      totalSent, totalFailed, stop := 0, 0, Interrupted;
      var cancelled: bool := *;
      while !cancelled
        invariant Valid() && |rows| == |old(rows)|
        invariant totalSent + totalFailed + Remaining(rows) <= old(Remaining(rows))
        invariant SentRows(rows) == old(SentRows(rows)) + totalSent
        invariant stop.Interrupted?
        decreases Remaining(rows)
      {
        RemainingNonNegative(rows);
        var sent, failed, reason := RunOnce(!wake);
        RemainingNonNegative(rows);
        totalSent, totalFailed := totalSent + sent, totalFailed + failed;
        if sent + failed < batch {
          stop := reason;
          break;
        }
        cancelled := *;
      }
      RemainingNonNegative(rows);
    }
  }
}
