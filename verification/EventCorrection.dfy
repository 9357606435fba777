/**
 Correcting a timeline entry (internal/crmapi/event_correction.go): its type or comment changes, the old type goes
 to the entry's history, and when it is the lead's latest status entry the lead follows.
 */
module EventCorrection {
  import opened Prelude
  import opened LeadModel

  datatype Request = Request(kind: Option<Kind>, due: Option<Time>, comment: Option<Option<string>>)

  function TypeOf(k: Kind): EntryType {
    match k
    case Comment => CommentAdded
    case Thinking => ClientChanged
    case _ => CallChanged
  }

  function CategoryOf(k: Kind): Category {
    match k
    case Comment => CommentCategory
    case Thinking => ClientCategory
    case _ => CallCategory
  }

  function CodeOf(k: Kind): Code {
    match k
    case Success => CallCode(Reached)
    case Later => CallCode(CallbackRequested)
    case NoAnswer => CallCode(Unanswered)
    case Thinking => ClientCode(Client.Thinking)
    case Comment => NoCode
  }

  /** correctionKindOfEvent: the kind a stored entry reads as. */
  function KindOf(what: EntryType, code: Code): Option<Kind> {
    match what
    case CommentAdded => Some(Comment)
    case CallChanged =>
      if code == CallCode(Reached) then Some(Kind.Success)
      else if code == CallCode(CallbackRequested) then Some(Kind.Later)
      else if code == CallCode(Unanswered) then Some(Kind.NoAnswer)
      else None
    case ClientChanged => if code == ClientCode(Client.Thinking) then Some(Kind.Thinking) else None
    case _ => None
  }

  function KindOfEntry(e: Entry): Option<Kind> {
    KindOf(e.what, e.code)
  }

  predicate NeedsDate(k: Kind) {
    k.Later? || k.NoAnswer? || k.Thinking?
  }

  function NextKind(r: Request, current: Kind): Kind {
    if r.kind.Some? then r.kind.value else current
  }

  function NextComment(r: Request, current: Option<string>): Option<string> {
    if r.comment.Some? then r.comment.value else current
  }

  predicate ValidRequest(r: Request, current: Kind, comment: Option<string>) {
    && (r.kind.Some? || r.comment.Some?)
    && r.kind != Some(current)
    && (r.kind.Some? && NeedsDate(NextKind(r, current)) ==> r.due.Some?)
    && (!NeedsDate(NextKind(r, current)) ==> r.due.None?)
    && (NextKind(r, current).Comment? ==> NextComment(r, comment).Some?)
  }

  predicate WasLatest(l: Lead, i: nat) {
    LatestStatus(l.entries) == Some(i)
  }

  /** A comment turned into a status entry leads only when it is strictly later than every status entry. */
  predicate BecomesLatest(l: Lead, i: nat, current: Kind, kind: Kind)
    requires i < |l.entries|
  {
    && current.Comment? && !kind.Comment?
    && (LatestStatus(l.entries).Some? ==> l.entries[i].at > l.entries[LatestStatus(l.entries).value].at)
  }

  /** Whether the lead's status follows the correction. */
  predicate LeadFollows(l: Lead, i: nat, current: Kind, kind: Kind)
    requires i < |l.entries|
  {
    kind != current && (WasLatest(l, i) || BecomesLatest(l, i, current, kind)) && !Terminal(l.client)
  }

  // ---- the lead without what the entry did, then with what it now says -----------------------

  function UndoneCall(l: Lead, i: nat, current: Kind): Option<Call>
    requires i < |l.entries|
  {
    if WasLatest(l, i) && CategoryOf(current).CallCategory? then l.entries[i].oldCall else l.call
  }

  function UndoneClient(l: Lead, i: nat, current: Kind): Client
    requires i < |l.entries|
  {
    if WasLatest(l, i) && current.Thinking? then
      if l.entries[i].oldClient.Some? then l.entries[i].oldClient.value else NewLead
    else l.client
  }

  function UndoneAttempts(l: Lead, i: nat, current: Kind): nat
    requires i < |l.entries|
  {
    if WasLatest(l, i) && current.NoAnswer? && l.attempts > 0 then l.attempts - 1 else l.attempts
  }

  function FollowingLead(l: Lead, i: nat, current: Kind, kind: Kind, due: Option<Time>): Lead
    requires i < |l.entries|
  {
    var call := if CodeOf(kind).CallCode? then Some(CodeOf(kind).call) else UndoneCall(l, i, current);
    var client := if CodeOf(kind).ClientCode? then CodeOf(kind).client else UndoneClient(l, i, current);
    l.(call := call, client := client, callbackDue := if kind.Comment? then None else due,
       v2 := Derive(client, call),
       attempts := UndoneAttempts(l, i, current) + if kind.NoAnswer? then 1 else 0)
  }

  function CorrectedEntry(l: Lead, i: nat, current: Kind, kind: Kind, comment: Option<string>, due: Option<Time>): Entry
    requires i < |l.entries|
  {
    var e := l.entries[i];
    var keepsOld := LeadFollows(l, i, current, kind) && !WasLatest(l, i);
    e.(what := TypeOf(kind), category := CategoryOf(kind), code := CodeOf(kind), comment := comment,
       due := if kind != current then (if kind.Comment? then None else due) else if due.Some? then due else e.due,
       oldCall := if keepsOld then l.call else e.oldCall,
       oldClient := if keepsOld then Some(l.client) else e.oldClient,
       corrections := e.corrections + [Correction(current, kind)])
  }

  function CorrectStep(l: Lead, i: nat, r: Request): Result<Lead, Error> {
    if l.archived then Err(NotFound)
    else if i >= |l.entries| then Err(NotFound)
    else if KindOfEntry(l.entries[i]).None? then Err(NotCorrectable)
    else
      var current := KindOfEntry(l.entries[i]).value;
      if !ValidRequest(r, current, l.entries[i].comment) then Err(Invalid)
      else
        var kind := NextKind(r, current);
        var entry := CorrectedEntry(l, i, current, kind, NextComment(r, l.entries[i].comment), r.due);
        var lead :=
          if LeadFollows(l, i, current, kind) then FollowingLead(l, i, current, kind, r.due)
          else if kind == current && r.due.Some? && WasLatest(l, i) && !Terminal(l.client) then l.(callbackDue := r.due)
          else l;
        Ok(lead.(entries := l.entries[i := entry]))
  }

  // ---- what corrections keep -----------------------------------------------------------------

  /** An entry that can be corrected never remembers a closed client status to go back to. */
  predicate UndoesToOpen(e: Entry) {
    KindOfEntry(e).Some? && e.oldClient.Some? ==> !Terminal(e.oldClient.value)
  }

  /** Each correction starts from the type the one before ended with, and the entry reads as the last one's type. */
  predicate ChainOk(e: Entry) {
    && (forall k :: 0 < k < |e.corrections| ==> e.corrections[k - 1].to == e.corrections[k].from)
    && (e.corrections != [] ==> KindOfEntry(e) == Some(e.corrections[|e.corrections| - 1].to))
  }

  predicate EntriesOk(entries: seq<Entry>) {
    forall i :: 0 <= i < |entries| ==> UndoesToOpen(entries[i]) && ChainOk(entries[i])
  }

  lemma {:induction false} KindIsReadBack(k: Kind)
    ensures KindOf(TypeOf(k), CodeOf(k)) == Some(k)
  {
  }

  lemma {:induction false} FollowingKeepsInv(l: Lead, i: nat, current: Kind, kind: Kind, due: Option<Time>)
    requires Coherent(l) && i < |l.entries| && !Terminal(l.client)
    requires KindOfEntry(l.entries[i]) == Some(current) && UndoesToOpen(l.entries[i])
    ensures Inv(FollowingLead(l, i, current, kind, due))
  {
  }

  lemma {:induction false} CorrectKeeps(l: Lead, i: nat, r: Request)
    requires Coherent(l) && EntriesOk(l.entries) && CorrectStep(l, i, r).Ok?
    ensures var after := CorrectStep(l, i, r).value;
            Coherent(after) && EntriesOk(after.entries) && (CallsMirrored(l) ==> CallsMirrored(after))
  {
    var current := KindOfEntry(l.entries[i]).value;
    var kind := NextKind(r, current);
    if LeadFollows(l, i, current, kind) {
      FollowingKeepsInv(l, i, current, kind, r.due);
    }
    EntryKeepsOk(l, i, current, kind, NextComment(r, l.entries[i].comment), r.due);
  }

  lemma {:induction false} EntryKeepsOk(l: Lead, i: nat, current: Kind, kind: Kind, comment: Option<string>,
                                        due: Option<Time>)
    requires i < |l.entries| && KindOfEntry(l.entries[i]) == Some(current)
    requires UndoesToOpen(l.entries[i]) && ChainOk(l.entries[i])
    ensures var e := CorrectedEntry(l, i, current, kind, comment, due);
            UndoesToOpen(e) && ChainOk(e) && e.corrections == l.entries[i].corrections + [Correction(current, kind)]
  {
    KindIsReadBack(kind);
  }

  /** A correction only adds to the history of its own entry and changes no other entry. */
  lemma {:induction false} CorrectionsOnlyAppend(l: Lead, i: nat, r: Request)
    requires CorrectStep(l, i, r).Ok?
    ensures var after := CorrectStep(l, i, r).value.entries;
            && |after| == |l.entries| && after == l.entries[i := after[i]]
            && |after[i].corrections| == |l.entries[i].corrections| + 1
            && l.entries[i].corrections < after[i].corrections
            && KindOfEntry(after[i]) == Some(after[i].corrections[|l.entries[i].corrections|].to)
  {
    KindIsReadBack(NextKind(r, KindOfEntry(l.entries[i]).value));
  }

  // ---- there and back ------------------------------------------------------------------------

  predicate IsCall(k: Kind) {
    CategoryOf(k).CallCategory?
  }

  lemma {:induction false} LatestDependsOnOrder(a: seq<Entry>, b: seq<Entry>)
    requires |a| == |b|
    requires forall k :: 0 <= k < |a| ==> IsStatus(a[k]) == IsStatus(b[k]) && a[k].at == b[k].at && a[k].id == b[k].id
    ensures LatestStatus(a) == LatestStatus(b)
  {
    if a != [] {
      LatestDependsOnOrder(a[..|a| - 1], b[..|b| - 1]);
    }
  }

  /** The request that changes only the type. */
  function Retype(kind: Kind, due: Option<Time>): Request {
    Request(Some(kind), due, None)
  }

  predicate DateFits(kind: Kind, due: Option<Time>) {
    NeedsDate(kind) == due.Some?
  }

  /** A mere change of type is accepted exactly when it changes it, dates what needs a date and comments what is one. */
  lemma {:induction false} RetypeAcceptedIff(l: Lead, i: nat, kind: Kind, due: Option<Time>)
    requires !l.archived && i < |l.entries| && KindOfEntry(l.entries[i]).Some?
    ensures CorrectStep(l, i, Retype(kind, due)).Ok?
       <==> && KindOfEntry(l.entries[i]) != Some(kind) && DateFits(kind, due)
            && (kind.Comment? ==> l.entries[i].comment.Some?)
  {
  }

  /** Changing the type of the latest status entry, as a change of the lead. */
  lemma {:induction false} RetypeLatest(l: Lead, i: nat, current: Kind, kind: Kind, due: Option<Time>)
    requires !l.archived && !Terminal(l.client) && WasLatest(l, i) && i < |l.entries|
    requires KindOfEntry(l.entries[i]) == Some(current) && kind != current && !kind.Comment? && !current.Comment?
    requires DateFits(kind, due)
    ensures var r := CorrectStep(l, i, Retype(kind, due));
            && r.Ok?
            && r.value == FollowingLead(l, i, current, kind, due).(entries := r.value.entries)
            && |r.value.entries| == |l.entries| && WasLatest(r.value, i)
            && KindOfEntry(r.value.entries[i]) == Some(kind)
            && r.value.entries[i].oldCall == l.entries[i].oldCall
            && r.value.entries[i].oldClient == l.entries[i].oldClient
  {
    KindIsReadBack(kind);
    var after := CorrectStep(l, i, Retype(kind, due)).value.entries;
    assert after[i] == CorrectedEntry(l, i, current, kind, l.entries[i].comment, due);
    LatestDependsOnOrder(l.entries, after);
  }

  /**
   Correcting the latest call entry to another call kind and back restores the call and the client status. The
   counter comes back unless it was zero under a no-answer entry (a v1 no-answer does not raise it), and the v2
   status comes back exactly when it was the derived one.
   */
  lemma {:induction false} CallThereAndBack(l: Lead, i: nat, k1: Kind, k2: Kind, due2: Option<Time>, due1: Option<Time>)
    requires !l.archived && !Terminal(l.client) && WasLatest(l, i) && i < |l.entries|
    requires KindOfEntry(l.entries[i]) == Some(k1) && IsCall(k1) && IsCall(k2) && k1 != k2
    requires l.call == Some(CodeOf(k1).call) && DateFits(k1, due1) && DateFits(k2, due2)
    ensures var first := CorrectStep(l, i, Retype(k2, due2));
            first.Ok? && first.value.call == Some(CodeOf(k2).call) && first.value.client == l.client &&
            var back := CorrectStep(first.value, i, Retype(k1, due1));
            && back.Ok?
            && back.value.call == l.call && back.value.client == l.client
            && (back.value.attempts == l.attempts <==> !(k1.NoAnswer? && l.attempts == 0))
            && (back.value.v2 == l.v2 <==> l.v2 == Derive(l.client, l.call))
  {
    RetypeLatest(l, i, k1, k2, due2);
    var first := CorrectStep(l, i, Retype(k2, due2)).value;
    assert first.attempts == UndoneAttempts(l, i, k1) + if k2.NoAnswer? then 1 else 0;
    RetypeLatest(first, i, k2, k1, due1);
  }

  /**
   Through "thinking" and back the call status returns, but the client status only when the entry remembers it:
   a call entry stores no old client status, so the lead comes back as new.
   */
  lemma {:induction false} ThinkingThereAndBack(l: Lead, i: nat, k: Kind, due2: Option<Time>, due1: Option<Time>)
    requires !l.archived && !Terminal(l.client) && WasLatest(l, i) && i < |l.entries|
    requires KindOfEntry(l.entries[i]) == Some(k) && IsCall(k)
    requires l.call == Some(CodeOf(k).call) && DateFits(k, due1) && DateFits(Kind.Thinking, due2)
    ensures var first := CorrectStep(l, i, Retype(Kind.Thinking, due2));
            first.Ok? && first.value.client == Client.Thinking && first.value.call == l.entries[i].oldCall &&
            var back := CorrectStep(first.value, i, Retype(k, due1));
            && back.Ok? && back.value.call == l.call
            && (back.value.client == l.client
                <==> l.client == if l.entries[i].oldClient.Some? then l.entries[i].oldClient.value else NewLead)
  {
    RetypeLatest(l, i, k, Kind.Thinking, due2);
    RetypeLatest(CorrectStep(l, i, Retype(Kind.Thinking, due2)).value, i, Kind.Thinking, k, due1);
  }
}
