/**
 Idempotent requests: claimIdempotency (internal/crmapi/workflow.go), beginIdempotentTx and
 finishIdempotentTx (internal/crmapi/projects.go).

 The key row is inserted first, in the transaction that later writes the effect and the response.
 A second insert of the same key waits for the first transaction to end, so an in-flight key is a
 lock. Everything a transaction wrote appears at commit or not at all. The actor and the operation
 are part of the key; hashes, bodies and effects are opaque.
 */
module Idempotency {
  import opened Prelude

  type Hash = nat
  type Effect = nat
  type TxId = nat

  datatype Key = Key(actor: nat, operation: string, key: string)
  datatype Response = Response(status: int, body: string)

  /** A key row: `response` is absent until the transaction that inserted it stores one. */
  datatype Record = Record(hash: Hash, response: Option<Response>)

  /** A transaction that owns its key, and the effect it has written but not committed. */
  datatype Tx = Tx(key: Key, hash: Hash, effect: Option<Effect>)

  /** What a client was told: `original` when its own transaction produced the response. */
  datatype Answer = Answer(key: Key, hash: Hash, response: Response, original: bool)

  datatype State = State(
    keys: map<Key, Record>,
    txs: map<TxId, Tx>,
    effects: seq<(Key, Effect)>, // committed effects, oldest first
    answers: seq<Answer>)        // successful answers, oldest first

  datatype Event =
    | Begin(t: TxId, key: Key, hash: Hash)
    | Apply(t: TxId, effect: Effect)
    | Finish(t: TxId, response: Response)
    | Rollback(t: TxId)
    | CommitUnfinished(t: TxId) // the oversize branch of the document upload: commits the key row, stores no response

  datatype Claim = Owned | Replay(response: Response) | HashMismatch | Incomplete

  /** claimIdempotency: insert the key, or compare with the committed row. */
  function ClaimOf(keys: map<Key, Record>, key: Key, hash: Hash): Claim {
    if key !in keys then Owned
    else if keys[key].hash != hash then HashMismatch
    else if keys[key].response.None? || keys[key].response.value.body == "" then Incomplete
    else Replay(keys[key].response.value)
  }

  predicate InFlight(s: State, key: Key) {
    exists t :: t in s.txs && s.txs[t].key == key
  }

  /** One step; a step that has to wait, or whose transaction is gone, leaves the state alone. */
  function Next(s: State, e: Event): State {
    match e
    case Begin(t, key, hash) =>
      if t in s.txs || InFlight(s, key) then s
      else (
        match ClaimOf(s.keys, key, hash)
        case Owned => s.(txs := s.txs[t := Tx(key, hash, None)])
        case Replay(response) => s.(answers := s.answers + [Answer(key, hash, response, false)])
        case HashMismatch => s
        case Incomplete => s
      )
    case Apply(t, effect) =>
      if t !in s.txs || s.txs[t].effect.Some? then s
      else s.(txs := s.txs[t := s.txs[t].(effect := Some(effect))])
    case Finish(t, response) =>
      if t !in s.txs || s.txs[t].effect.None? || response.body == "" then s
      else
        var tx := s.txs[t];
        State(s.keys[tx.key := Record(tx.hash, Some(response))], s.txs - {t},
              s.effects + [(tx.key, tx.effect.value)],
              s.answers + [Answer(tx.key, tx.hash, response, true)])
    case Rollback(t) => s.(txs := s.txs - {t})
    case CommitUnfinished(t) =>
      if t !in s.txs || s.txs[t].effect.Some? then s
      else s.(keys := s.keys[s.txs[t].key := Record(s.txs[t].hash, None)], txs := s.txs - {t})
  }

  function Run(s: State, events: seq<Event>): State
    decreases |events|
  {
    if events == [] then s else Run(Next(s, events[0]), events[1..])
  }

  const EMPTY := State(map[], map[], [], [])

  function CountEffects(effects: seq<(Key, Effect)>, key: Key): nat {
    if effects == [] then 0
    else CountEffects(effects[..|effects| - 1], key) + (if effects[|effects| - 1].0 == key then 1 else 0)
  }

  function CountOriginals(answers: seq<Answer>, key: Key): nat {
    if answers == [] then 0
    else CountOriginals(answers[..|answers| - 1], key)
         + (if answers[|answers| - 1].key == key && answers[|answers| - 1].original then 1 else 0)
  }

  lemma {:induction false} CountEffectsAppend(effects: seq<(Key, Effect)>, item: (Key, Effect), key: Key)
    ensures CountEffects(effects + [item], key) == CountEffects(effects, key) + (if item.0 == key then 1 else 0)
  {
    assert (effects + [item])[..|effects|] == effects;
  }

  lemma {:induction false} CountOriginalsAppend(answers: seq<Answer>, a: Answer, key: Key)
    ensures CountOriginals(answers + [a], key)
         == CountOriginals(answers, key) + (if a.key == key && a.original then 1 else 0)
  {
    assert (answers + [a])[..|answers|] == answers;
  }

  predicate Complete(s: State, key: Key) {
    key in s.keys && s.keys[key].response.Some?
  }

  /** Keys in flight are not committed yet, and each is in flight once. */
  ghost predicate TxInv(s: State) {
    && (forall t :: t in s.txs ==> s.txs[t].key !in s.keys)
    && (forall t, u :: t in s.txs && u in s.txs && t != u ==> s.txs[t].key != s.txs[u].key)
  }

  predicate CountInv(s: State, key: Key) {
    && CountEffects(s.effects, key) == (if Complete(s, key) then 1 else 0)
    && CountOriginals(s.answers, key) == (if Complete(s, key) then 1 else 0)
  }

  predicate AnswerInv(s: State, a: Answer) {
    Complete(s, a.key) && s.keys[a.key] == Record(a.hash, Some(a.response)) && a.response.body != ""
  }

  ghost predicate Inv(s: State) {
    && TxInv(s)
    && (forall key :: CountInv(s, key))
    && (forall a :: a in s.answers ==> AnswerInv(s, a))
  }

  /** A committed key row never changes. */
  ghost predicate KeepsRecords(before: State, after: State) {
    forall key :: key in before.keys ==> key in after.keys && after.keys[key] == before.keys[key]
  }

  lemma {:induction false} StepKeepsRecords(s: State, e: Event)
    requires TxInv(s)
    ensures TxInv(Next(s, e)) && KeepsRecords(s, Next(s, e))
  {
  }

  lemma {:induction false} StepKeepsCounts(s: State, e: Event, key: Key)
    requires TxInv(s) && CountInv(s, key)
    ensures CountInv(Next(s, e), key)
  {
    match e
    case Begin(_, k, hash) =>
      if ClaimOf(s.keys, k, hash).Replay? {
        CountOriginalsAppend(s.answers, Answer(k, hash, ClaimOf(s.keys, k, hash).response, false), key);
      }
    case Finish(t, response) => FinishKeepsCounts(s, t, response, key);
    case _ =>
  }

  lemma {:induction false} FinishKeepsCounts(s: State, t: TxId, response: Response, key: Key)
    requires TxInv(s) && CountInv(s, key)
    ensures CountInv(Next(s, Finish(t, response)), key)
  {
    if t in s.txs && s.txs[t].effect.Some? {
      var tx := s.txs[t];
      CountEffectsAppend(s.effects, (tx.key, tx.effect.value), key);
      CountOriginalsAppend(s.answers, Answer(tx.key, tx.hash, response, true), key);
    }
  }

  lemma {:induction false} StepKeepsAnswers(s: State, e: Event, a: Answer)
    requires Inv(s) && a in Next(s, e).answers
    ensures AnswerInv(Next(s, e), a)
  {
    StepKeepsRecords(s, e);
    if a in s.answers {
      assert AnswerInv(s, a);
    }
  }

  lemma {:induction false} StepKeepsInv(s: State, e: Event)
    requires Inv(s)
    ensures Inv(Next(s, e)) && KeepsRecords(s, Next(s, e))
  {
    StepKeepsRecords(s, e);
    forall key ensures CountInv(Next(s, e), key) {
      StepKeepsCounts(s, e, key);
    }
    forall a | a in Next(s, e).answers ensures AnswerInv(Next(s, e), a) {
      StepKeepsAnswers(s, e, a);
    }
  }

  lemma {:induction false} RunKeepsInv(s: State, events: seq<Event>)
    requires Inv(s)
    ensures Inv(Run(s, events)) && KeepsRecords(s, Run(s, events))
    decreases |events|
  {
    if events != [] {
      StepKeepsInv(s, events[0]);
      RunKeepsInv(Next(s, events[0]), events[1..]);
    }
  }

  /** Whatever the interleaving: one key commits at most one effect, and exactly as many first answers. */
  lemma {:induction false} AtMostOneEffect(events: seq<Event>, key: Key)
    ensures var s := Run(EMPTY, events);
            CountEffects(s.effects, key) == CountOriginals(s.answers, key) == (if Complete(s, key) then 1 else 0)
  {
    RunKeepsInv(EMPTY, events);
    assert CountInv(Run(EMPTY, events), key);
  }

  /** All successful answers of one key carry one response, and all came from requests with one hash. */
  lemma {:induction false} AnswersAgree(events: seq<Event>, a: Answer, b: Answer)
    requires a in Run(EMPTY, events).answers && b in Run(EMPTY, events).answers && a.key == b.key
    ensures a.response == b.response && a.hash == b.hash
    ensures CountEffects(Run(EMPTY, events).effects, a.key) == 1
  {
    RunKeepsInv(EMPTY, events);
    assert AnswerInv(Run(EMPTY, events), a) && CountInv(Run(EMPTY, events), a.key);
  }

  lemma {:induction false} AnswersOnlyGrow(s: State, events: seq<Event>)
    ensures s.answers <= Run(s, events).answers && s.effects <= Run(s, events).effects
    decreases |events|
  {
    if events != [] {
      AnswersOnlyGrow(Next(s, events[0]), events[1..]);
    }
  }

  /** After a success, every later request of the key is a replay of that very answer or a conflict, forever. */
  lemma {:induction false} SuccessIsForever(first: seq<Event>, later: seq<Event>, a: Answer, hash: Hash)
    requires a in Run(EMPTY, first).answers
    ensures var s := Run(Run(EMPTY, first), later);
            && ClaimOf(s.keys, a.key, hash) == (if hash == a.hash then Replay(a.response) else HashMismatch)
            && !InFlight(s, a.key)
            && CountEffects(s.effects, a.key) == CountEffects(Run(EMPTY, first).effects, a.key) == 1
  {
    RunKeepsInv(EMPTY, first);
    RunKeepsInv(Run(EMPTY, first), later);
    assert AnswerInv(Run(EMPTY, first), a) && CountInv(Run(EMPTY, first), a.key);
    assert CountInv(Run(Run(EMPTY, first), later), a.key);
    AnswersOnlyGrow(Run(EMPTY, first), later);
  }

  /** A request that owned the key and rolled back leaves no trace of itself: any request may claim the key next. */
  lemma {:induction false} RollbackLeavesKeyReusable(s: State, t: TxId, key: Key, hash: Hash, effect: Effect,
                                                     u: TxId, other: Hash)
    requires Inv(s) && t !in s.txs && u !in s.txs && !InFlight(s, key) && key !in s.keys
    ensures Next(Next(Next(s, Begin(t, key, hash)), Apply(t, effect)), Rollback(t)) == s
    ensures Next(Next(s, Begin(t, key, hash)), Rollback(t)) == s
    ensures u in Next(s, Begin(u, key, other)).txs
  {
  }

  /** While a transaction owns a key, every other request of that key waits. */
  lemma {:induction false} SecondRequestWaits(s: State, t: TxId, u: TxId, key: Key, hash: Hash)
    requires t in s.txs && s.txs[t].key == key
    ensures Next(s, Begin(u, key, hash)) == s
  {
  }

  /**
   The one handler that commits a claim without a response spends the key for good: no later request
   of it, with any hash, is ever answered or has an effect.
   */
  lemma {:induction false} UnfinishedKeyIsSpent(s: State, events: seq<Event>, key: Key)
    requires Inv(s) && key in s.keys && s.keys[key].response.None?
    ensures forall hash :: ClaimOf(Run(s, events).keys, key, hash).HashMismatch?
                           || ClaimOf(Run(s, events).keys, key, hash).Incomplete?
    ensures CountEffects(Run(s, events).effects, key) == CountOriginals(Run(s, events).answers, key) == 0
  {
    RunKeepsInv(s, events);
    assert CountInv(Run(s, events), key);
  }

  /** A run does its steps one after the other. */
  lemma {:induction false} RunIs(s: State, events: seq<Event>, e: Event)
    ensures Run(s, []) == s && Run(s, events + [e]) == Next(Run(s, events), e)
    decreases |events|
  {
    if events == [] {
      assert [e][1..] == [] && events + [e] == [e];
      assert Run(Next(s, e), []) == Next(s, e);
    } else {
      assert (events + [e])[1..] == events[1..] + [e];
      RunIs(Next(s, events[0]), events[1..], e);
    }
  }

  /** A request that owns its key, applies its effect and finishes has stored and answered exactly that. */
  lemma {:induction false} OwnerCommits(s: State, t: TxId, key: Key, hash: Hash, effect: Effect, response: Response)
    requires t !in s.txs && key !in s.keys && response.body != "" && forall u :: u in s.txs ==> s.txs[u].key != key
    ensures Next(Next(Next(s, Begin(t, key, hash)), Apply(t, effect)), Finish(t, response))
         == State(s.keys[key := Record(hash, Some(response))], s.txs, s.effects + [(key, effect)],
                  s.answers + [Answer(key, hash, response, true)])
  {
    var begun := Next(s, Begin(t, key, hash));
    assert begun == s.(txs := s.txs[t := Tx(key, hash, None)]);
    assert Next(begun, Apply(t, effect)).txs - {t} == s.txs;
  }

  /** A later request gets the stored answer when its hash is the stored one, and changes nothing else. */
  lemma {:induction false} LaterIsReplayed(s: State, t: TxId, key: Key, hash: Hash)
    requires t !in s.txs && key in s.keys && forall u :: u in s.txs ==> s.txs[u].key != key
    ensures var stored := s.keys[key];
            Next(s, Begin(t, key, hash))
            == if stored.hash == hash && stored.response.Some? && stored.response.value.body != ""
               then s.(answers := s.answers + [Answer(key, hash, stored.response.value, false)]) else s
    ensures ClaimOf(s.keys, key, hash) == HashMismatch <==> s.keys[key].hash != hash
    ensures ClaimOf(s.keys, key, hash) == Incomplete <==>
              s.keys[key].hash == hash && (s.keys[key].response == None || s.keys[key].response.value.body == "")
  {
  }

  // ---- the handler's own control flow --------------------------------------------------------

  /** The key table as one request sees it: no other transaction is in flight on its key. */
  class KeyTable {
    var keys: map<Key, Record>

    constructor ()
      ensures keys == map[]
    {
      keys := map[];
    }

    /** claimIdempotency: the insert, then on a conflict the row's hash, then its completeness. */
    method ClaimKey(key: Key, hash: Hash) returns (claim: Claim)
      modifies this
      ensures claim == ClaimOf(old(keys), key, hash)
      ensures keys == if claim.Owned? then old(keys)[key := Record(hash, None)] else old(keys)
    {
      if key !in keys {
        keys := keys[key := Record(hash, None)];
        return Owned;
      }
      var existing := keys[key];
      if existing.hash != hash {
        return HashMismatch;
      }
      if existing.response.None? || |existing.response.value.body| == 0 {
        return Incomplete;
      }
      return Replay(existing.response.value);
    }

    /** finishIdempotentTx. */
    method StoreResponse(key: Key, response: Response)
      requires key in keys
      modifies this
      ensures keys == old(keys)[key := Record(old(keys)[key].hash, Some(response))]
    {
      keys := keys[key := keys[key].(response := Some(response))];
    }

    /** One request start to end: claim, then the effect with its response, or a failure that rolls everything back. */
    method Handle(key: Key, hash: Hash, succeeds: bool, response: Response) returns (claim: Claim, ran: bool)
      requires response.body != ""
      modifies this
      ensures claim == ClaimOf(old(keys), key, hash)
      ensures ran <==> claim.Owned? && succeeds
      ensures keys == if ran then old(keys)[key := Record(hash, Some(response))] else old(keys)
      ensures ran ==> ClaimOf(keys, key, hash) == Replay(response)
    {
      var before := keys;
      ran := false;
      claim := ClaimKey(key, hash);
      if claim.Owned? {
        if succeeds {
          StoreResponse(key, response);
          ran := true;
        } else {
          keys := before;
        }
      }
    }
  }
}
